/** Shares waiting for their user (backend/app/storage/canonical_repo.py): the
    pending-identity queue, `drain_pending_identity_queue`,
    `rebind_acl_principal`, `principal_can_read_document` and
    `bind_pending_drive_shares`, over the in-memory tables. */
module PendingShares {
  import opened Prelude
  import opened Models
  import opened TextOps

  type AclTable = map<string, seq<AclEntry>>

  /** (tenant, document id, email) to the principal it was resolved to, if it was. */
  type QueueKey = (Uuid, string, string)
  type Queue = map<QueueKey, Option<Uuid>>

  function NormalEmail(email: string): string {
    Lower(Strip(email))
  }

  /** Emails that differ in padding and in the case of letters are one key of the queue. */
  lemma {:induction false} OneQueueKey(a: string, b: string)
    ensures NormalEmail(a) == NormalEmail(b) <==> SameButCase(Strip(a), Strip(b))
    ensures IsSmallFormOf(NormalEmail(a), Strip(a))
  {
    hide Strip, Lower, SameButCase, IsSmallFormOf;
    SameLower(Strip(a), Strip(b));
    LowerIsSmallForm(Strip(a), Lower(Strip(a)));
  }

  // ---------------------------------------------------------------- document ids and rows

  const DRIVE_PREFIX := "google_drive_"
  const GMAIL_PREFIX := "google_gmail_"

  function PrefixAlias(raw: string, prefix: string): seq<string> {
    if StartsWith(raw, prefix) && |raw| > |prefix| then [raw[|prefix|..]]
    else if !StartsWith(raw, DRIVE_PREFIX) && !StartsWith(raw, GMAIL_PREFIX) then [prefix + raw]
    else []
  }

  /** `_document_id_aliases` */
  function Aliases(documentId: string): (r: seq<string>)
    ensures Distinct(r)
    ensures Strip(documentId) != "" ==> Strip(documentId) in r
  {
    var raw := Strip(documentId);
    if raw == "" then []
    else FromKeys([raw] + PrefixAlias(raw, DRIVE_PREFIX) + PrefixAlias(raw, GMAIL_PREFIX))
  }

  /** a is the id without the padding, or what that id reads with one of the two
      source prefixes taken off or, where it has neither, put on. */
  ghost predicate IsAlias(a: string, documentId: string) {
    var id := Strip(documentId);
    && id != ""
    && (|| a == id
        || (a != "" && (id == "google_drive_" + a || id == "google_gmail_" + a))
        || (!("google_drive_" <= id) && !("google_gmail_" <= id)
            && (a == "google_drive_" + id || a == "google_gmail_" + id)))
  }

  lemma {:induction false} PrefixAliasMeaning(id: string, prefix: string, a: string)
    requires prefix == DRIVE_PREFIX || prefix == GMAIL_PREFIX
    ensures a in PrefixAlias(id, prefix) <==>
        || (a != "" && id == prefix + a)
        || (!(DRIVE_PREFIX <= id) && !(GMAIL_PREFIX <= id) && a == prefix + id)
  {
    if prefix <= id {
      assert id == prefix + id[|prefix|..];
    }
    if id == prefix + a {
      assert id[|prefix|..] == a;
    }
  }

  lemma {:induction false} AliasesSpelled(documentId: string, a: string)
    ensures a in Aliases(documentId) <==> IsAlias(a, documentId)
  {
    hide Strip, PrefixAlias;
    var id := Strip(documentId);
    PrefixAliasMeaning(id, DRIVE_PREFIX, a);
    PrefixAliasMeaning(id, GMAIL_PREFIX, a);
    assert a in [id] <==> a == id;
  }

  /** `_source_type_from_document_id` */
  function SourceTypeOf(documentId: string): string {
    if StartsWith(documentId, "google_gmail") then "google_gmail" else "google_drive"
  }

  /** `_bound_share_acl_entry` */
  function BoundEntry(documentId: string, principal: Uuid, tenant: Uuid): AclEntry {
    var gmail := SourceTypeOf(documentId) == "google_gmail";
    AclEntry(documentId, Some(principal), None, if gmail then OWNER else READ,
             if gmail then "gmail_mailbox" else "drive_share", None, false, SourceTypeOf(documentId), tenant)
  }

  /** A bound share: an allow row of the principal on the document, ownership of
      a mailbox document and reading of any other. */
  ghost predicate IsBoundShare(e: AclEntry, documentId: string, principal: Uuid, tenant: Uuid) {
    && e.documentId == documentId && e.tenantId == tenant && !e.isDeny && e.sourceContainerId == None
    && e.principalId == Some(principal) && e.groupId == None
    && (if "google_gmail" <= documentId
        then e.permission == OWNER && e.grantedVia == "gmail_mailbox" && e.sourceType == "google_gmail"
        else e.permission == READ && e.grantedVia == "drive_share" && e.sourceType == "google_drive")
  }

  lemma {:induction false} BoundEntrySpelled(documentId: string, principal: Uuid, tenant: Uuid)
    ensures IsBoundShare(BoundEntry(documentId, principal, tenant), documentId, principal, tenant)
  {
  }

  function Rows(acl: AclTable, documentId: string): seq<AclEntry> {
    if documentId in acl then acl[documentId] else []
  }

  predicate SameGrant(a: AclEntry, b: AclEntry) {
    a.principalId == b.principalId && a.groupId == b.groupId && a.isDeny == b.isDeny
  }

  /** `insert_acl_entry` on the rows of one document. */
  function WithRow(rows: seq<AclEntry>, entry: AclEntry): seq<AclEntry> {
    if exists e :: e in rows && SameGrant(e, entry) then rows else rows + [entry]
  }

  // ---------------------------------------------------------------- access

  predicate RowFor(e: AclEntry, tenant: Uuid, principal: Uuid, deny: bool) {
    e.tenantId == tenant && e.principalId == Some(principal) && e.isDeny == deny
  }

  /** p has an allow (or deny) row stored under exactly this id. */
  predicate HasRowAt(acl: AclTable, tenant: Uuid, p: Uuid, id: string, deny: bool) {
    exists e :: e in Rows(acl, id) && RowFor(e, tenant, p, deny)
  }

  predicate HasRow(acl: AclTable, tenant: Uuid, p: Uuid, documentId: string, deny: bool) {
    exists a :: a in Aliases(documentId) && HasRowAt(acl, tenant, p, a, deny)
  }

  /** `principal_can_read_document`: deny wins, no row is no access. */
  predicate CanRead(acl: AclTable, tenant: Uuid, p: Uuid, documentId: string) {
    !HasRow(acl, tenant, p, documentId, true) && HasRow(acl, tenant, p, documentId, false)
  }

  ghost predicate StoredFor(acl: AclTable, tenant: Uuid, p: Uuid, documentId: string, e: AclEntry) {
    && (exists a :: IsAlias(a, documentId) && a in acl && e in acl[a])
    && e.tenantId == tenant && e.principalId == Some(p)
  }

  /** p reads a document exactly when p has rows of the tenant stored under its
      aliases and none of them denies. */
  lemma {:induction false} CanReadSpelled(acl: AclTable, tenant: Uuid, p: Uuid, documentId: string)
    ensures CanRead(acl, tenant, p, documentId) <==>
        && (exists e :: StoredFor(acl, tenant, p, documentId, e))
        && (forall e :: StoredFor(acl, tenant, p, documentId, e) ==> !e.isDeny)
  {
    HasRowSpelled(acl, tenant, p, documentId, true);
    HasRowSpelled(acl, tenant, p, documentId, false);
    hide HasRow, StoredFor;
  }

  lemma {:induction false} HasRowSpelled(acl: AclTable, tenant: Uuid, p: Uuid, documentId: string, deny: bool)
    ensures HasRow(acl, tenant, p, documentId, deny) <==>
        exists e :: StoredFor(acl, tenant, p, documentId, e) && e.isDeny == deny
  {
    forall a {
      AliasesSpelled(documentId, a);
    }
    hide Aliases, IsAlias;
    if a :| a in Aliases(documentId) && HasRowAt(acl, tenant, p, a, deny) {
      var e :| e in Rows(acl, a) && RowFor(e, tenant, p, deny);
      assert StoredFor(acl, tenant, p, documentId, e);
    }
    if e :| StoredFor(acl, tenant, p, documentId, e) && e.isDeny == deny {
      var a :| IsAlias(a, documentId) && a in acl && e in acl[a];
      assert a in Aliases(documentId) && e in Rows(acl, a) && RowFor(e, tenant, p, deny);
    }
  }

  // ---------------------------------------------------------------- draining

  predicate Waits(queue: Queue, tenant: Uuid, documentId: string, email: string) {
    (tenant, documentId, email) in queue && queue[(tenant, documentId, email)].None?
  }

  function WaitingDocs(queue: Queue, tenant: Uuid, email: string): set<string> {
    set k | k in queue && k.0 == tenant && k.2 == email && queue[k].None? :: k.1
  }

  function DrainedAcl(acl: AclTable, docs: set<string>, p: Uuid, tenant: Uuid): AclTable {
    map d | d in acl.Keys + docs ::
      if d in docs then WithRow(Rows(acl, d), BoundEntry(d, p, tenant)) else acl[d]
  }

  function DrainedQueue(queue: Queue, docs: set<string>, tenant: Uuid, email: string, p: Uuid): Queue {
    map k | k in queue :: if k.0 == tenant && k.2 == email && k.1 in docs then Some(p) else queue[k]
  }

  // ---------------------------------------------------------------- rebinding

  function ReboundRow(e: AclEntry, tenant: Uuid, from: Uuid, to: Uuid): AclEntry {
    if e.tenantId == tenant && e.principalId == Some(from) then e.(principalId := Some(to)) else e
  }

  function ReboundRows(rows: seq<AclEntry>, tenant: Uuid, from: Uuid, to: Uuid): (r: seq<AclEntry>)
    ensures |r| == |rows| && forall i :: 0 <= i < |rows| ==> r[i] == ReboundRow(rows[i], tenant, from, to)
  {
    seq(|rows|, i requires 0 <= i < |rows| => ReboundRow(rows[i], tenant, from, to))
  }

  function ReboundAcl(acl: AclTable, tenant: Uuid, from: Uuid, to: Uuid): AclTable {
    map d | d in acl :: ReboundRows(acl[d], tenant, from, to)
  }

  predicate Mentions(acl: AclTable, tenant: Uuid, p: Uuid, id: string) {
    HasRowAt(acl, tenant, p, id, true) || HasRowAt(acl, tenant, p, id, false)
  }

  function DocsMentioning(acl: AclTable, tenant: Uuid, p: Uuid): set<string> {
    set d | d in acl && Mentions(acl, tenant, p, d)
  }

  // ---------------------------------------------------------------- binding

  /** `shadow` is the identity principal minted for the email, if there is one. */
  function BoundAcl(acl: AclTable, queue: Queue, tenant: Uuid, email: string, p: Uuid, shadow: Option<Uuid>): AclTable {
    var drained := DrainedAcl(acl, WaitingDocs(queue, tenant, email), p, tenant);
    if shadow.Some? && shadow.value != p then ReboundAcl(drained, tenant, shadow.value, p) else drained
  }

  function BoundQueue(queue: Queue, tenant: Uuid, email: string, p: Uuid): Queue {
    DrainedQueue(queue, WaitingDocs(queue, tenant, email), tenant, email, p)
  }

  /** The documents a bind touches. */
  function AffectedDocs(acl: AclTable, queue: Queue, tenant: Uuid, email: string, p: Uuid,
                        shadow: Option<Uuid>): set<string> {
    WaitingDocs(queue, tenant, email)
    + (if shadow.Some? && shadow.value != p then DocsMentioning(acl, tenant, shadow.value) else {})
  }

  /** Rows that name p are rows of this tenant: a principal id serves one tenant. */
  ghost predicate OwnRows(acl: AclTable, tenant: Uuid, p: Uuid) {
    forall d, e :: d in acl && e in acl[d] && e.principalId == Some(p) ==> e.tenantId == tenant
  }

  lemma {:induction false} WithRowMeaning(rows: seq<AclEntry>, d: string, tenant: Uuid, p: Uuid, q: Uuid, deny: bool)
    requires forall e :: e in rows && e.principalId == Some(p) ==> e.tenantId == tenant
    ensures (exists e :: e in WithRow(rows, BoundEntry(d, p, tenant)) && RowFor(e, tenant, q, deny))
       <==> (exists e :: e in rows && RowFor(e, tenant, q, deny)) || (q == p && !deny)
  {
    var bound := BoundEntry(d, p, tenant);
    var after := WithRow(rows, bound);
    if q == p && !deny {
      if e :| e in rows && SameGrant(e, bound) {
        assert RowFor(e, tenant, p, false);
      } else {
        assert bound in after && RowFor(bound, tenant, p, false);
      }
    }
    if e :| e in rows && RowFor(e, tenant, q, deny) {
      assert e in after;
    }
  }

  lemma {:induction false} DrainedRow(acl: AclTable, docs: set<string>, tenant: Uuid, p: Uuid, q: Uuid, d: string,
                                      deny: bool)
    requires OwnRows(acl, tenant, p)
    ensures HasRowAt(DrainedAcl(acl, docs, p, tenant), tenant, q, d, deny)
       <==> HasRowAt(acl, tenant, q, d, deny) || (q == p && !deny && d in docs)
  {
    if d in docs {
      WithRowMeaning(Rows(acl, d), d, tenant, p, q, deny);
    }
  }

  lemma {:induction false} ReboundRowMeaning(acl: AclTable, tenant: Uuid, from: Uuid, to: Uuid, q: Uuid, d: string,
                                             deny: bool)
    requires from != to
    ensures HasRowAt(ReboundAcl(acl, tenant, from, to), tenant, q, d, deny)
       <==> if q == to then HasRowAt(acl, tenant, to, d, deny) || HasRowAt(acl, tenant, from, d, deny)
            else q != from && HasRowAt(acl, tenant, q, d, deny)
  {
    ReboundRowsMeaning(Rows(acl, d), tenant, from, to, q, deny);
  }

  lemma {:induction false} ReboundRowsMeaning(rows: seq<AclEntry>, tenant: Uuid, from: Uuid, to: Uuid, q: Uuid,
                                              deny: bool)
    requires from != to
    ensures (exists e :: e in ReboundRows(rows, tenant, from, to) && RowFor(e, tenant, q, deny))
       <==> exists e :: e in rows
              && ((q != from && RowFor(e, tenant, q, deny)) || (q == to && RowFor(e, tenant, from, deny)))
  {
    var after := ReboundRows(rows, tenant, from, to);
    if e :| e in after && RowFor(e, tenant, q, deny) {
      var i :| 0 <= i < |after| && after[i] == e;
      assert rows[i] in rows;
    }
    if e :| e in rows && ((q != from && RowFor(e, tenant, q, deny)) || (q == to && RowFor(e, tenant, from, deny))) {
      var i :| 0 <= i < |rows| && rows[i] == e;
      assert after[i] in after;
    }
  }

  /** Rows after a bind, id by id. */
  lemma {:induction false} BoundRow(acl: AclTable, queue: Queue, tenant: Uuid, email: string, p: Uuid,
                                    shadow: Option<Uuid>,
                 q: Uuid, d: string, deny: bool)
    requires OwnRows(acl, tenant, p)
    ensures HasRowAt(BoundAcl(acl, queue, tenant, email, p, shadow), tenant, q, d, deny)
       <==> if q == p then
              || HasRowAt(acl, tenant, p, d, deny)
              || (shadow.Some? && HasRowAt(acl, tenant, shadow.value, d, deny))
              || (!deny && Waits(queue, tenant, d, email))
            else shadow != Some(q) && HasRowAt(acl, tenant, q, d, deny)
  {
    var docs := WaitingDocs(queue, tenant, email);
    assert d in docs <==> Waits(queue, tenant, d, email);
    DrainedRow(acl, docs, tenant, p, q, d, deny);
    if shadow.Some? && shadow.value != p {
      DrainedRow(acl, docs, tenant, p, p, d, deny);
      DrainedRow(acl, docs, tenant, p, shadow.value, d, deny);
      ReboundRowMeaning(DrainedAcl(acl, docs, p, tenant), tenant, shadow.value, p, q, d, deny);
    }
  }

  lemma {:induction false} AliasRows(acl: AclTable, queue: Queue, tenant: Uuid, email: string, p: Uuid,
                                     shadow: Option<Uuid>,
                  q: Uuid, documentId: string, deny: bool)
    requires OwnRows(acl, tenant, p)
    ensures HasRow(BoundAcl(acl, queue, tenant, email, p, shadow), tenant, q, documentId, deny)
       <==> if q == p then
              || HasRow(acl, tenant, p, documentId, deny)
              || (shadow.Some? && HasRow(acl, tenant, shadow.value, documentId, deny))
              || (!deny && exists a :: a in Aliases(documentId) && Waits(queue, tenant, a, email))
            else shadow != Some(q) && HasRow(acl, tenant, q, documentId, deny)
  {
    forall a | a in Aliases(documentId)
      ensures HasRowAt(BoundAcl(acl, queue, tenant, email, p, shadow), tenant, q, a, deny)
         <==> if q == p then
                || HasRowAt(acl, tenant, p, a, deny)
                || (shadow.Some? && HasRowAt(acl, tenant, shadow.value, a, deny))
                || (!deny && Waits(queue, tenant, a, email))
              else shadow != Some(q) && HasRowAt(acl, tenant, q, a, deny)
    {
      BoundRow(acl, queue, tenant, email, p, shadow, q, a, deny);
    }
    hide HasRowAt, Aliases, BoundAcl, Waits;
  }

  /** The access equation of a bind. p can read a document exactly when neither
      p nor the shadow had a deny row on its aliases and p or the shadow had an
      allow row there or a share for the email was waiting on one of them; the
      shadow can read nothing any more; nobody else's access changes. */
  lemma {:induction false} BindAccess(acl: AclTable, queue: Queue, tenant: Uuid, email: string, p: Uuid,
                                      shadow: Option<Uuid>,
                   q: Uuid, documentId: string)
    requires OwnRows(acl, tenant, p)
    ensures CanRead(BoundAcl(acl, queue, tenant, email, p, shadow), tenant, q, documentId)
       <==> if q == p then
              && !HasRow(acl, tenant, p, documentId, true)
              && !(shadow.Some? && HasRow(acl, tenant, shadow.value, documentId, true))
              && (|| HasRow(acl, tenant, p, documentId, false)
                  || (shadow.Some? && HasRow(acl, tenant, shadow.value, documentId, false))
                  || exists a :: a in Aliases(documentId) && Waits(queue, tenant, a, email))
            else shadow != Some(q) && CanRead(acl, tenant, q, documentId)
  {
    AliasRows(acl, queue, tenant, email, p, shadow, q, documentId, true);
    AliasRows(acl, queue, tenant, email, p, shadow, q, documentId, false);
    hide HasRow, BoundAcl, Waits, Aliases;
  }

  /** Where a row stands after a bind: it was there, or it was there as the
      shadow's, or it is the share that was waiting for the document. */
  ghost predicate Explained(acl: AclTable, queue: Queue, tenant: Uuid, email: string, p: Uuid, shadow: Option<Uuid>,
                            d: string, e: AclEntry)
  {
    || (d in acl && exists was :: was in acl[d] && e == AfterBind(was, tenant, p, shadow))
    || ((tenant, d, email) in queue && queue[(tenant, d, email)] == None && IsBoundShare(e, d, p, tenant))
  }

  ghost function AfterBind(e: AclEntry, tenant: Uuid, p: Uuid, shadow: Option<Uuid>): AclEntry {
    if shadow != None && e.tenantId == tenant && e.principalId == shadow then e.(principalId := Some(p)) else e
  }

  /** No row comes from nowhere, none is lost, and every document that waited
      has an allow row of p, the bound share unless one was there. */
  lemma {:induction false} EveryRowExplained(acl: AclTable, queue: Queue, tenant: Uuid, email: string, p: Uuid,
                                             shadow: Option<Uuid>, d: string)
    ensures var after := BoundAcl(acl, queue, tenant, email, p, shadow);
            && (d in after ==> forall e :: e in after[d] ==> Explained(acl, queue, tenant, email, p, shadow, d, e))
            && (d in acl ==> d in after && forall e :: e in acl[d] ==> AfterBind(e, tenant, p, shadow) in after[d])
            && ((tenant, d, email) in queue && queue[(tenant, d, email)] == None ==>
                  d in after && exists e :: e in after[d] && e.principalId == Some(p) && e.groupId == None && !e.isDeny)
  {
    hide BoundEntry, WithRow, DrainedAcl, ReboundAcl, IsBoundShare, ReboundRows, Rows;
    var docs := WaitingDocs(queue, tenant, email);
    assert d in docs <==> (tenant, d, email) in queue && queue[(tenant, d, email)] == None;
    var drained := DrainedAcl(acl, docs, p, tenant);
    DrainedRows(acl, docs, p, tenant, d);
    if shadow.Some? && shadow.value != p {
      ReboundAt(drained, tenant, shadow.value, p, d);
      if d in drained {
        ReboundIsAfterBind(drained[d], tenant, shadow.value, p);
      }
      assert forall e :: IsBoundShare(e, d, p, tenant) ==> AfterBind(e, tenant, p, shadow) == e by {
        BoundShareStays(tenant, p, shadow, d);
      }
    } else {
      assert forall e :: AfterBind(e, tenant, p, shadow) == e;
    }
  }

  lemma {:induction false} BoundShareStays(tenant: Uuid, p: Uuid, shadow: Option<Uuid>, d: string)
    requires shadow != Some(p)
    ensures forall e :: IsBoundShare(e, d, p, tenant) ==> AfterBind(e, tenant, p, shadow) == e
  {
  }

  lemma {:induction false} ReboundAt(acl: AclTable, tenant: Uuid, from: Uuid, to: Uuid, d: string)
    ensures d in ReboundAcl(acl, tenant, from, to) <==> d in acl
    ensures d in acl ==> ReboundAcl(acl, tenant, from, to)[d] == ReboundRows(acl[d], tenant, from, to)
  {
  }

  lemma {:induction false} DrainedRows(acl: AclTable, docs: set<string>, p: Uuid, tenant: Uuid, d: string)
    ensures var after := DrainedAcl(acl, docs, p, tenant);
            && (d in after <==> d in acl || d in docs)
            && (d in after ==> forall e :: e in after[d] ==>
                  (d in acl && e in acl[d]) || (d in docs && IsBoundShare(e, d, p, tenant)))
            && (d in acl ==> forall e :: e in acl[d] ==> e in after[d])
            && (d in docs ==> exists e :: e in after[d] && e.principalId == Some(p) && e.groupId == None && !e.isDeny)
  {
    BoundEntrySpelled(d, p, tenant);
    var bound := BoundEntry(d, p, tenant);
    hide BoundEntry;
    if d in docs {
      var after := WithRow(Rows(acl, d), bound);
      if e :| e in Rows(acl, d) && SameGrant(e, bound) {
        assert e in after;
      } else {
        assert bound in after;
      }
    }
  }

  lemma {:induction false} ReboundIsAfterBind(rows: seq<AclEntry>, tenant: Uuid, from: Uuid, to: Uuid)
    ensures forall e :: e in rows ==> AfterBind(e, tenant, to, Some(from)) in ReboundRows(rows, tenant, from, to)
    ensures forall e :: e in ReboundRows(rows, tenant, from, to) ==>
              exists was :: was in rows && e == AfterBind(was, tenant, to, Some(from))
  {
    var after := ReboundRows(rows, tenant, from, to);
    forall e | e in rows ensures AfterBind(e, tenant, to, Some(from)) in after {
      var i :| 0 <= i < |rows| && rows[i] == e;
      assert after[i] == AfterBind(e, tenant, to, Some(from));
    }
    forall e | e in after ensures exists was :: was in rows && e == AfterBind(was, tenant, to, Some(from)) {
      var i :| 0 <= i < |after| && after[i] == e;
      assert rows[i] in rows && e == AfterBind(rows[i], tenant, to, Some(from));
    }
  }

  /** The documents reported are those a share waited for and those with a row
      of the shadow; afterwards no entry of that email waits and all else in the
      queue is as it was. */
  lemma {:induction false} AffectedSpelled(acl: AclTable, queue: Queue, tenant: Uuid, email: string, p: Uuid,
                                           shadow: Option<Uuid>, d: string)
    ensures d in AffectedDocs(acl, queue, tenant, email, p, shadow) <==>
        || ((tenant, d, email) in queue && queue[(tenant, d, email)] == None)
        || (shadow != None && shadow != Some(p) && d in acl
            && exists e :: e in acl[d] && e.tenantId == tenant && e.principalId == shadow)
    ensures BoundQueue(queue, tenant, email, p).Keys == queue.Keys
    ensures forall k :: k in queue ==>
              BoundQueue(queue, tenant, email, p)[k] ==
                if k.0 == tenant && k.2 == email && queue[k] == None then Some(p) else queue[k]
  {
    assert d in WaitingDocs(queue, tenant, email) <==>
        (tenant, d, email) in queue && queue[(tenant, d, email)] == None;
    if shadow.Some? {
      MentionsMeaning(acl, tenant, shadow.value, d);
    }
    forall k | k in queue && k.0 == tenant && k.2 == email
      ensures k.1 in WaitingDocs(queue, tenant, email) <==> queue[k] == None
    {
      assert k == (tenant, k.1, email);
    }
  }

  /** A second bind finds nothing to do. */
  lemma {:induction false} SecondBindIsEmpty(acl: AclTable, queue: Queue, tenant: Uuid, email: string, p: Uuid,
                                             shadow: Option<Uuid>)
    requires OwnRows(acl, tenant, p)
    ensures AffectedDocs(BoundAcl(acl, queue, tenant, email, p, shadow), BoundQueue(queue, tenant, email, p),
                         tenant, email, p, shadow) == {}
  {
    var acl', queue' := BoundAcl(acl, queue, tenant, email, p, shadow), BoundQueue(queue, tenant, email, p);
    assert WaitingDocs(queue', tenant, email) == {};
    if shadow.Some? && shadow.value != p {
      forall d | d in acl' ensures !Mentions(acl', tenant, shadow.value, d) {
        BoundRow(acl, queue, tenant, email, p, shadow, shadow.value, d, true);
        BoundRow(acl, queue, tenant, email, p, shadow, shadow.value, d, false);
      }
    }
  }

  /** A document outside the affected ones keeps its rows as they were. */
  lemma {:induction false} BindTouchesOnlyAffected(acl: AclTable, queue: Queue, tenant: Uuid, email: string, p: Uuid,
                                                   shadow: Option<Uuid>, d: string)
    ensures d !in AffectedDocs(acl, queue, tenant, email, p, shadow) ==>
              (d in BoundAcl(acl, queue, tenant, email, p, shadow) <==> d in acl)
              && Rows(BoundAcl(acl, queue, tenant, email, p, shadow), d) == Rows(acl, d)
  {
    if d !in AffectedDocs(acl, queue, tenant, email, p, shadow) && d in acl && shadow.Some? && shadow.value != p {
      var rows := acl[d];
      forall i | 0 <= i < |rows| ensures ReboundRow(rows[i], tenant, shadow.value, p) == rows[i] {
        assert rows[i] in Rows(acl, d) && !HasRowAt(acl, tenant, shadow.value, d, rows[i].isDeny);
      }
      assert ReboundRows(rows, tenant, shadow.value, p) == rows;
    }
  }

  // ---------------------------------------------------------------- the repository

  class ShareRepo {
    var aclEntries: AclTable
    var pending: Queue
    var principalsByEmail: map<(Uuid, string), Uuid>

    constructor ()
      ensures aclEntries == map[] && pending == map[] && principalsByEmail == map[]
    {
      aclEntries, pending, principalsByEmail := map[], map[], map[];
    }

    /** True when the row is new; a repeated sighting changes nothing. */
    method UpsertPendingIdentity(tenant: Uuid, documentId: string, sharedEmail: string) returns (inserted: bool)
      modifies this`pending
      ensures inserted <==> (tenant, documentId, NormalEmail(sharedEmail)) !in old(pending)
      ensures pending == if inserted then old(pending)[(tenant, documentId, NormalEmail(sharedEmail)) := None]
                         else old(pending)
    {
      var key := (tenant, documentId, NormalEmail(sharedEmail));
      if key in pending {
        return false;
      }
      pending := pending[key := None];
      return true;
    }

    method InsertAclEntry(entry: AclEntry)
      modifies this`aclEntries
      ensures aclEntries == old(aclEntries)[entry.documentId := WithRow(Rows(old(aclEntries), entry.documentId), entry)]
      ensures var rows := if entry.documentId in old(aclEntries) then old(aclEntries)[entry.documentId] else [];
              aclEntries[entry.documentId] ==
              if exists e :: e in rows && e.principalId == entry.principalId && e.groupId == entry.groupId
                             && e.isDeny == entry.isDeny
              then rows else rows + [entry]
    {
      var existing := Rows(aclEntries, entry.documentId);
      for i := 0 to |existing|
        invariant forall j :: 0 <= j < i ==> !SameGrant(existing[j], entry)
        invariant aclEntries == old(aclEntries)
      {
        if SameGrant(existing[i], entry) {
          aclEntries := aclEntries[entry.documentId := existing];
          return;
        }
      }
      aclEntries := aclEntries[entry.documentId := existing + [entry]];
    }

    /** Binds every waiting share of the email; the queue may be walked in any order. */
    method DrainPendingIdentityQueue(tenant: Uuid, email: string, principal: Uuid) returns (drained: seq<string>)
      modifies this`aclEntries, this`pending
      ensures var docs := WaitingDocs(old(pending), tenant, NormalEmail(email));
              && Distinct(drained) && ToSet(drained) == docs
              && aclEntries == DrainedAcl(old(aclEntries), docs, principal, tenant)
              && pending == DrainedQueue(old(pending), docs, tenant, NormalEmail(email), principal)
    {
      var normalized := NormalEmail(email);
      var queue, acl := pending, aclEntries;
      var left := queue.Keys;
      drained := [];
      NothingDrained(acl, queue, tenant, normalized, principal);
      hide DrainedAcl, DrainedQueue, WithRow, SeenDocs, WaitingDocs, NormalEmail, BoundEntry;
      while left != {}
        invariant left <= queue.Keys
        invariant Distinct(drained) && ToSet(drained) == SeenDocs(queue, left, tenant, normalized)
        invariant aclEntries == DrainedAcl(acl, ToSet(drained), principal, tenant)
        invariant pending == DrainedQueue(queue, ToSet(drained), tenant, normalized, principal)
        decreases left
      {
        var key :| key in left;
        SeenOneMore(queue, left, key, tenant, normalized);
        DrainedQueueAt(queue, ToSet(drained), tenant, normalized, principal, key);
        left := left - {key};
        if key.0 == tenant && key.2 == normalized && pending[key].None? {
          var documentId := key.1;
          DrainOneMore(acl, ToSet(drained), documentId, principal, tenant);
          InsertAclEntry(BoundEntry(documentId, principal, tenant));
          pending := pending[key := Some(principal)];
          DistinctPush(drained, documentId);
          drained := drained + [documentId];
        }
      }
      AllSeen(queue, tenant, normalized);
    }

    method RebindAclPrincipal(tenant: Uuid, from: Uuid, to: Uuid) returns (documentIds: seq<string>)
      modifies this`aclEntries
      ensures from == to ==> documentIds == [] && aclEntries == old(aclEntries)
      ensures from != to ==>
                && Distinct(documentIds) && ToSet(documentIds) == DocsMentioning(old(aclEntries), tenant, from)
                && aclEntries == ReboundAcl(old(aclEntries), tenant, from, to)
    {
      documentIds := [];
      if from == to {
        return;
      }
      var acl := aclEntries;
      var left := acl.Keys;
      ReboundEnds(acl, tenant, from, to);
      hide PartlyRebound, MentionedOutside, ReboundAcl, DocsMentioning, Mentions;
      while left != {}
        invariant left <= acl.Keys
        invariant aclEntries == PartlyRebound(acl, left, tenant, from, to)
        invariant Distinct(documentIds) && ToSet(documentIds) == MentionedOutside(acl, left, tenant, from)
        decreases left
      {
        var documentId :| documentId in left;
        ReboundOneMore(acl, left, documentId, tenant, from, to);
        left := left - {documentId};
        var changed, rows := RebindRows(aclEntries[documentId], tenant, from, to);
        aclEntries := aclEntries[documentId := rows];
        MentionsMeaning(acl, tenant, from, documentId);
        if changed {
          DistinctPush(documentIds, documentId);
          documentIds := documentIds + [documentId];
        }
      }
    }

    method PrincipalCanReadDocument(tenant: Uuid, principal: Uuid, documentId: string) returns (readable: bool)
      ensures readable <==> CanRead(aclEntries, tenant, principal, documentId)
    {
      hide HasRowAt, Aliases;
      var candidates := Aliases(documentId);
      var anyDeny, anyAllow := false, false;
      for i := 0 to |candidates|
        invariant anyDeny <==> exists j :: 0 <= j < i && HasRowAt(aclEntries, tenant, principal, candidates[j], true)
        invariant anyAllow <==> exists j :: 0 <= j < i && HasRowAt(aclEntries, tenant, principal, candidates[j], false)
      {
        anyDeny := anyDeny || HasRowAt(aclEntries, tenant, principal, candidates[i], true);
        anyAllow := anyAllow || HasRowAt(aclEntries, tenant, principal, candidates[i], false);
      }
      return !anyDeny && anyAllow;
    }

    function GetPrincipalByEmail(email: string, tenant: Uuid): Option<Uuid>
      reads this`principalsByEmail
    {
      if (tenant, Lower(email)) in principalsByEmail then Some(principalsByEmail[(tenant, Lower(email))]) else None
    }

    /** The shadow of an email is the principal stored for the tenant under the email in small letters. */
    lemma {:induction false} ShadowSpelled(email: string, tenant: Uuid, small: string)
      requires IsSmallFormOf(small, email)
      ensures GetPrincipalByEmail(email, tenant) ==
          if (tenant, small) in principalsByEmail then Some(principalsByEmail[(tenant, small)]) else None
    {
      LowerIsSmallForm(email, small);
      hide Lower, IsSmallFormOf;
    }

    /** Drain, then rebind the shadow principal's rows; returns every affected
        document once. */
    method BindPendingDriveShares(tenant: Uuid, email: string, principal: Uuid) returns (documentIds: seq<string>)
      modifies this`aclEntries, this`pending
      ensures var shadow := GetPrincipalByEmail(email, tenant);
              && aclEntries == BoundAcl(old(aclEntries), old(pending), tenant, NormalEmail(email), principal, shadow)
              && pending == BoundQueue(old(pending), tenant, NormalEmail(email), principal)
              && (old(OwnRows(aclEntries, tenant, principal)) ==>
                    Distinct(documentIds) && ToSet(documentIds)
                    == AffectedDocs(old(aclEntries), old(pending), tenant, NormalEmail(email), principal, shadow))
    {
      var shadow := GetPrincipalByEmail(email, tenant);
      BindParts(aclEntries, pending, tenant, NormalEmail(email), principal, shadow);
      hide *;
      documentIds := DrainPendingIdentityQueue(tenant, email, principal);
      if shadow.Some? && shadow.value != principal {
        var more := RebindAclPrincipal(tenant, shadow.value, principal);
        ShadowDocs(old(aclEntries), WaitingDocs(old(pending), tenant, NormalEmail(email)), tenant, principal,
            shadow.value);
        UnionSet(documentIds, more);
        documentIds := documentIds + more;
      }
      FromKeysSet(documentIds);
      documentIds := FromKeys(documentIds);
    }
  }

  method RebindRows(rows: seq<AclEntry>, tenant: Uuid, from: Uuid, to: Uuid)
    returns (changed: bool, rebound: seq<AclEntry>)
    ensures rebound == ReboundRows(rows, tenant, from, to)
    ensures changed <==> exists e :: e in rows && e.tenantId == tenant && e.principalId == Some(from)
  {
    changed, rebound := false, rows;
    for i := 0 to |rows|
      invariant |rebound| == |rows|
      invariant forall j :: 0 <= j < |rows| ==>
                  rebound[j] == if j < i then ReboundRow(rows[j], tenant, from, to) else rows[j]
      invariant changed <==> exists j :: 0 <= j < i && rows[j].tenantId == tenant && rows[j].principalId == Some(from)
    {
      if rows[i].tenantId == tenant && rows[i].principalId == Some(from) {
        rebound := rebound[i := rows[i].(principalId := Some(to))];
        changed := true;
      }
    }
  }

  /** The waiting documents among the queue keys not in `left`. */
  function SeenDocs(queue: Queue, left: set<QueueKey>, tenant: Uuid, email: string): set<string> {
    set k | k in queue && k !in left && k.0 == tenant && k.2 == email && queue[k].None? :: k.1
  }

  lemma {:induction false} SeenOneMore(queue: Queue, left: set<QueueKey>, key: QueueKey, tenant: Uuid, email: string)
    requires key in left && key in queue
    ensures key.0 == tenant && key.2 == email && queue[key].None? ==>
              && key.1 !in SeenDocs(queue, left, tenant, email)
              && SeenDocs(queue, left - {key}, tenant, email) == SeenDocs(queue, left, tenant, email) + {key.1}
    ensures !(key.0 == tenant && key.2 == email && queue[key].None?) ==>
              SeenDocs(queue, left - {key}, tenant, email) == SeenDocs(queue, left, tenant, email)
  {
    var before, after := SeenDocs(queue, left, tenant, email), SeenDocs(queue, left - {key}, tenant, email);
    forall d ensures d in after <==>
        d in before || (d == key.1 && key.0 == tenant && key.2 == email && queue[key].None?) {
      var k := (tenant, d, email);
      assert d in after <==> k in queue && k !in left - {key} && queue[k].None?;
      assert d in before <==> k in queue && k !in left && queue[k].None?;
    }
  }

  lemma {:induction false} AllSeen(queue: Queue, tenant: Uuid, email: string)
    ensures SeenDocs(queue, {}, tenant, email) == WaitingDocs(queue, tenant, email)
  {
  }

  lemma {:induction false} NothingDrained(acl: AclTable, queue: Queue, tenant: Uuid, email: string, p: Uuid)
    ensures SeenDocs(queue, queue.Keys, tenant, email) == {} == ToSet<string>([])
    ensures DrainedAcl(acl, {}, p, tenant) == acl
    ensures DrainedQueue(queue, {}, tenant, email, p) == queue
  {
  }

  lemma {:induction false} DrainedQueueAt(queue: Queue, docs: set<string>, tenant: Uuid, email: string, p: Uuid,
                                          key: QueueKey)
    requires key in queue
    ensures key in DrainedQueue(queue, docs, tenant, email, p)
    ensures key.0 == tenant && key.2 == email && key.1 !in docs ==>
              && DrainedQueue(queue, docs, tenant, email, p)[key] == queue[key]
              && DrainedQueue(queue, docs, tenant, email, p)[key := Some(p)]
                 == DrainedQueue(queue, docs + {key.1}, tenant, email, p)
    ensures key.0 == tenant && key.2 == email && queue[key].Some? ==>
        DrainedQueue(queue, docs, tenant, email, p)[key].Some?
  {
  }

  lemma {:induction false} DistinctPush(s: seq<string>, x: string)
    requires Distinct(s) && x !in ToSet(s)
    ensures Distinct(s + [x]) && ToSet(s + [x]) == ToSet(s) + {x}
  {
    assert x !in s;
  }

  lemma {:induction false} UnionSet(a: seq<string>, b: seq<string>)
    ensures ToSet(a + b) == ToSet(a) + ToSet(b)
  {
  }

  lemma {:induction false} FromKeysSet(s: seq<string>)
    ensures Distinct(FromKeys(s)) && ToSet(FromKeys(s)) == ToSet(s)
  {
  }

  lemma {:induction false} MentionsMeaning(acl: AclTable, tenant: Uuid, p: Uuid, d: string)
    ensures Mentions(acl, tenant, p, d) <==>
        exists e :: e in Rows(acl, d) && e.tenantId == tenant && e.principalId == Some(p)
  {
    if e :| e in Rows(acl, d) && e.tenantId == tenant && e.principalId == Some(p) {
      assert RowFor(e, tenant, p, e.isDeny);
    }
  }

  function PartlyRebound(acl: AclTable, left: set<string>, tenant: Uuid, from: Uuid, to: Uuid): AclTable {
    map d | d in acl :: if d in left then acl[d] else ReboundRows(acl[d], tenant, from, to)
  }

  function MentionedOutside(acl: AclTable, left: set<string>, tenant: Uuid, p: Uuid): set<string> {
    set d | d in acl && d !in left && Mentions(acl, tenant, p, d)
  }

  lemma {:induction false} ReboundEnds(acl: AclTable, tenant: Uuid, from: Uuid, to: Uuid)
    ensures PartlyRebound(acl, acl.Keys, tenant, from, to) == acl
    ensures PartlyRebound(acl, {}, tenant, from, to) == ReboundAcl(acl, tenant, from, to)
    ensures MentionedOutside(acl, acl.Keys, tenant, from) == {} == ToSet<string>([])
    ensures MentionedOutside(acl, {}, tenant, from) == DocsMentioning(acl, tenant, from)
  {
  }

  lemma {:induction false} ReboundOneMore(acl: AclTable, left: set<string>, d: string, tenant: Uuid, from: Uuid,
                                          to: Uuid)
    requires d in left && d in acl
    ensures var now := PartlyRebound(acl, left, tenant, from, to);
            && d in now && now[d] == acl[d] == Rows(acl, d)
            && now[d := ReboundRows(acl[d], tenant, from, to)] == PartlyRebound(acl, left - {d}, tenant, from, to)
    ensures d !in MentionedOutside(acl, left, tenant, from)
    ensures MentionedOutside(acl, left - {d}, tenant, from)
         == MentionedOutside(acl, left, tenant, from) + (if Mentions(acl, tenant, from, d) then {d} else {})
  {
  }

  lemma {:induction false} BindParts(acl: AclTable, queue: Queue, tenant: Uuid, email: string, p: Uuid,
                                     shadow: Option<Uuid>)
    ensures var docs := WaitingDocs(queue, tenant, email);
            var drained := DrainedAcl(acl, docs, p, tenant);
            var rebinds := shadow.Some? && shadow.value != p;
            && BoundQueue(queue, tenant, email, p) == DrainedQueue(queue, docs, tenant, email, p)
            && BoundAcl(acl, queue, tenant, email, p, shadow)
               == (if rebinds then ReboundAcl(drained, tenant, shadow.value, p) else drained)
            && AffectedDocs(acl, queue, tenant, email, p, shadow)
               == docs + (if rebinds then DocsMentioning(acl, tenant, shadow.value) else {})
  {
  }

  lemma {:induction false} DrainOneMore(acl: AclTable, docs: set<string>, d: string, p: Uuid, tenant: Uuid)
    requires d !in docs
    ensures BoundEntry(d, p, tenant).documentId == d
    ensures var drained := DrainedAcl(acl, docs, p, tenant);
            drained[d := WithRow(Rows(drained, d), BoundEntry(d, p, tenant))] == DrainedAcl(acl, docs + {d}, p, tenant)
  {
  }

  /** Draining adds rows of p only, so the shadow's documents are the same before and after. */
  lemma {:induction false} ShadowDocs(acl: AclTable, docs: set<string>, tenant: Uuid, p: Uuid, shadow: Uuid)
    requires shadow != p
    ensures OwnRows(acl, tenant, p) ==>
              DocsMentioning(DrainedAcl(acl, docs, p, tenant), tenant, shadow) == DocsMentioning(acl, tenant, shadow)
  {
    if OwnRows(acl, tenant, p) {
      forall d ensures Mentions(DrainedAcl(acl, docs, p, tenant), tenant, shadow, d) <==>
          Mentions(acl, tenant, shadow, d) {
        DrainedRow(acl, docs, tenant, p, shadow, d, true);
        DrainedRow(acl, docs, tenant, p, shadow, d, false);
      }
    }
  }
}
