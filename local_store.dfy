/**
 * The SDK's local store (the contract asserted by
 * measure-android/.../storage/DatabaseTest.kt): an events table, an
 * attachments table, an event-to-batch table and a sessions table. Each table
 * is a sequence of rows in insertion order; every insert is one transaction
 * that either adds all of its rows or none of them.
 */
module LocalStore {
  import opened Wrappers

  // ---------------------------------------------------------------------
  // Rows and packets
  // ---------------------------------------------------------------------

  datatype AttachmentEntity = AttachmentEntity(id: string, kind: string, name: string, path: string)

  datatype EventEntity = EventEntity(
    id: string,
    eventType: string,
    timestamp: string,
    sessionId: string,
    serializedData: Option<string>,
    filePath: Option<string>,
    attachmentEntities: Option<seq<AttachmentEntity>>,
    serializedAttributes: Option<string>,
    serializedAttachments: Option<string>,
    attachmentsSize: int)

  /** A row of the attachments table: the attachment plus its parent's id, session and timestamp. */
  datatype AttachmentRow = AttachmentRow(
    id: string, kind: string, name: string, path: string,
    eventId: string, sessionId: string, timestamp: string)

  /** A row of the events-batch table: one event's membership in one batch. */
  datatype BatchRow = BatchRow(eventId: string, batchId: string, createdAt: int)

  datatype SessionRow = SessionRow(sessionId: string, pid: int, createdAt: int)

  /** What the exporter sends for one stored event. */
  datatype EventPacket = EventPacket(
    eventId: string,
    sessionId: string,
    timestamp: string,
    eventType: string,
    serializedData: Option<string>,
    serializedDataFilePath: Option<string>,
    serializedAttachments: Option<string>,
    serializedAttributes: Option<string>)

  /** What the exporter sends for one stored attachment. */
  datatype AttachmentPacket = AttachmentPacket(id: string, filePath: string)

  // ---------------------------------------------------------------------
  // Tables as sequences: filtering, keys, uniqueness
  // ---------------------------------------------------------------------

  /** The rows of `xs` that `keep` accepts, in their original order (a `WHERE` clause). */
  function Filter<T(!new)>(xs: seq<T>, keep: T -> bool): (r: seq<T>)
    ensures |r| <= |xs|
    ensures forall x :: x in r <==> x in xs && keep(x)
  {
    if |xs| == 0 then []
    else
      assert xs == xs[..|xs| - 1] + [xs[|xs| - 1]];
      Filter(xs[..|xs| - 1], keep) + (if keep(xs[|xs| - 1]) then [xs[|xs| - 1]] else [])
  }

  lemma {:induction false} FilterConcat<T(!new)>(xs: seq<T>, ys: seq<T>, keep: T -> bool)
    ensures Filter(xs + ys, keep) == Filter(xs, keep) + Filter(ys, keep)
    decreases |ys|
  {
    if |ys| == 0 {
      assert xs + ys == xs;
    } else {
      var init, last := ys[..|ys| - 1], ys[|ys| - 1];
      assert (xs + ys)[..|xs + ys| - 1] == xs + init;
      assert (xs + ys)[|xs + ys| - 1] == last;
      FilterConcat(xs, init, keep);
    }
  }

  /** Filtering with a test every row passes keeps the whole table. */
  lemma {:induction false} FilterKeepsAll<T(!new)>(xs: seq<T>, keep: T -> bool)
    requires forall x :: x in xs ==> keep(x)
    ensures Filter(xs, keep) == xs
    decreases |xs|
  {
    if |xs| > 0 {
      FilterKeepsAll(xs[..|xs| - 1], keep);
      assert xs == xs[..|xs| - 1] + [xs[|xs| - 1]];
    }
  }

  /** The positions of the rows `keep` accepts, in ascending order. */
  function KeptIndices<T(!new)>(xs: seq<T>, keep: T -> bool): seq<int>
  {
    if |xs| == 0 then []
    else KeptIndices(xs[..|xs| - 1], keep) + (if keep(xs[|xs| - 1]) then [|xs| - 1] else [])
  }

  /**
   * `Filter` picks rows by strictly increasing positions: the k-th kept row is
   * the row at the k-th position, and every accepted position is picked.
   */
  lemma {:induction false} FilterByIndices<T(!new)>(xs: seq<T>, keep: T -> bool)
    ensures |KeptIndices(xs, keep)| == |Filter(xs, keep)|
    ensures forall k, l :: 0 <= k < l < |KeptIndices(xs, keep)| ==> KeptIndices(xs, keep)[k] < KeptIndices(xs, keep)[l]
    ensures forall k :: 0 <= k < |KeptIndices(xs, keep)| ==>
              0 <= KeptIndices(xs, keep)[k] < |xs| && Filter(xs, keep)[k] == xs[KeptIndices(xs, keep)[k]]
    ensures forall i :: 0 <= i < |xs| && keep(xs[i]) ==> i in KeptIndices(xs, keep)
    decreases |xs|
  {
    if |xs| > 0 {
      var init, last := xs[..|xs| - 1], xs[|xs| - 1];
      FilterByIndices(init, keep);
      var idx0, r0 := KeptIndices(init, keep), Filter(init, keep);
      assert xs == init + [last];
      forall i | 0 <= i < |init| ensures xs[i] == init[i] { }
      if keep(last) {
        assert KeptIndices(xs, keep) == idx0 + [|xs| - 1];
        assert Filter(xs, keep) == r0 + [last];
      } else {
        assert KeptIndices(xs, keep) == idx0;
        assert Filter(xs, keep) == r0;
      }
    }
  }

  /** One column of every row, in table order (a projection). */
  function Select<T, K>(xs: seq<T>, key: T -> K): (r: seq<K>)
    ensures |r| == |xs|
  {
    seq(|xs|, i requires 0 <= i < |xs| => key(xs[i]))
  }

  lemma SelectConcat<T, K>(xs: seq<T>, ys: seq<T>, key: T -> K)
    ensures Select(xs + ys, key) == Select(xs, key) + Select(ys, key)
  {
  }

  lemma SelectMember<T, K>(xs: seq<T>, key: T -> K, k: K)
    ensures k in Select(xs, key) <==> exists x :: x in xs && key(x) == k
  {
    if k in Select(xs, key) {
      var i :| 0 <= i < |xs| && Select(xs, key)[i] == k;
      assert xs[i] in xs;
    }
    if exists x :: x in xs && key(x) == k {
      var x :| x in xs && key(x) == k;
      var i :| 0 <= i < |xs| && xs[i] == x;
      assert Select(xs, key)[i] == k;
    }
  }

  /** No value occurs twice (a primary key or a UNIQUE constraint). */
  predicate Distinct<K(==)>(s: seq<K>)
  {
    |s| == 0 || (Distinct(s[..|s| - 1]) && s[|s| - 1] !in s[..|s| - 1])
  }

  /** The recursive definition agrees with the pairwise one, in both directions. */
  lemma {:induction false} DistinctIffPairwise<K>(s: seq<K>)
    ensures Distinct(s) <==> forall i, j :: 0 <= i < j < |s| ==> s[i] != s[j]
    decreases |s|
  {
    if |s| > 0 {
      var init := s[..|s| - 1];
      DistinctIffPairwise(init);
      if Distinct(s) {
        forall i, j | 0 <= i < j < |s| ensures s[i] != s[j] {
          if j == |s| - 1 {
            assert s[i] == init[i];
          } else {
            assert s[i] == init[i] && s[j] == init[j];
          }
        }
      }
      if forall i, j :: 0 <= i < j < |s| ==> s[i] != s[j] {
        assert forall i, j :: 0 <= i < j < |init| ==> init[i] != init[j] by {
          forall i, j | 0 <= i < j < |init| ensures init[i] != init[j] {
            assert init[i] == s[i] && init[j] == s[j];
          }
        }
      }
    }
  }

  lemma {:induction false} DistinctConcat<K>(xs: seq<K>, ys: seq<K>)
    requires Distinct(xs) && Distinct(ys)
    requires forall k :: k in ys ==> k !in xs
    ensures Distinct(xs + ys)
    decreases |ys|
  {
    if |ys| == 0 {
      assert xs + ys == xs;
    } else {
      var init := ys[..|ys| - 1];
      assert (xs + ys)[..|xs + ys| - 1] == xs + init;
      assert forall k :: k in init ==> k in ys;
      DistinctConcat(xs, init);
    }
  }

  /** Removing rows never breaks a uniqueness constraint. */
  lemma {:induction false} FilterKeepsDistinct<T(!new), K>(xs: seq<T>, key: T -> K, keep: T -> bool)
    requires Distinct(Select(xs, key))
    ensures Distinct(Select(Filter(xs, keep), key))
    decreases |xs|
  {
    if |xs| > 0 {
      var init, last := xs[..|xs| - 1], xs[|xs| - 1];
      assert Select(xs, key)[..|xs| - 1] == Select(init, key);
      FilterKeepsDistinct(init, key, keep);
      var fi := Filter(init, keep);
      assert xs == init + [last];
      if keep(last) {
        assert Filter(xs, keep) == fi + [last];
        SelectConcat(fi, [last], key);
        SelectMember(fi, key, key(last));
        SelectMember(init, key, key(last));
        assert Select(xs, key)[|xs| - 1] == key(last);
        assert key(last) !in Select(fi, key);
        assert Distinct(Select([last], key)) by {
          assert Select([last], key)[..0] == [];
        }
        DistinctConcat(Select(fi, key), Select([last], key));
      } else {
        assert Filter(xs, keep) == fi;
      }
    }
  }

  lemma FilterDropsAll<T(!new)>(xs: seq<T>, keep: T -> bool)
    requires forall x :: x in xs ==> !keep(x)
    ensures Filter(xs, keep) == []
  {
  }

  lemma SelectMembers<T, K>(xs: seq<T>, f: T -> K)
    ensures forall x :: x in xs ==> f(x) in Select(xs, f)
    ensures forall k :: k in Select(xs, f) ==> exists x :: x in xs && f(x) == k
  {
    forall x | x in xs ensures f(x) in Select(xs, f) {
      SelectMember(xs, f, f(x));
    }
    forall k | k in Select(xs, f) ensures exists x :: x in xs && f(x) == k {
      SelectMember(xs, f, k);
    }
  }

  /** A sequence without repetitions has as many distinct elements as entries. */
  lemma {:induction false} DistinctCard<K>(s: seq<K>)
    requires Distinct(s)
    ensures |set k | k in s| == |s|
    decreases |s|
  {
    if |s| > 0 {
      var init := s[..|s| - 1];
      DistinctCard(init);
      assert s == init + [s[|s| - 1]];
      assert (set k | k in s) == (set k | k in init) + {s[|s| - 1]};
    }
  }

  /** The first `n` rows (a `LIMIT` clause). */
  function Take<T>(xs: seq<T>, n: nat): seq<T>
  {
    if n >= |xs| then xs else xs[..n]
  }

  // ---------------------------------------------------------------------
  // Keys and row tests of the four tables
  // ---------------------------------------------------------------------

  function EventKey(e: EventEntity): string { e.id }
  function AttachmentEntityKey(a: AttachmentEntity): string { a.id }
  function AttachmentKey(r: AttachmentRow): string { r.id }
  function BatchKey(b: BatchRow): (string, string) { (b.eventId, b.batchId) }
  function BatchEventId(b: BatchRow): string { b.eventId }
  function SessionKey(s: SessionRow): string { s.sessionId }

  /** The ids of a list, as a set. */
  function IdSet(ids: seq<string>): set<string>
  {
    set id | id in ids
  }

  /** Events whose id is (`wanted`) or is not (`!wanted`) among `ids`. */
  function EventSelected(ids: set<string>, wanted: bool): EventEntity -> bool
  {
    (e: EventEntity) => (e.id in ids) == wanted
  }

  /** Attachment rows whose parent is (or is not) among `ids`. */
  function RowSelected(ids: set<string>, wanted: bool): AttachmentRow -> bool
  {
    (r: AttachmentRow) => (r.eventId in ids) == wanted
  }

  /** Batch rows whose event is (or is not) among `ids`. */
  function BatchSelected(ids: set<string>, wanted: bool): BatchRow -> bool
  {
    (b: BatchRow) => (b.eventId in ids) == wanted
  }

  function InBatch(batchId: string): BatchRow -> bool
  {
    (b: BatchRow) => b.batchId == batchId
  }

  function OtherSession(sessionId: string): SessionRow -> bool
  {
    (s: SessionRow) => s.sessionId != sessionId
  }

  function CreatedFrom(t: int): SessionRow -> bool
  {
    (s: SessionRow) => s.createdAt >= t
  }

  // ---------------------------------------------------------------------
  // Attachment rows derived from events
  // ---------------------------------------------------------------------

  /** A null attachment list stores no attachment rows. */
  function AttachmentsOf(e: EventEntity): seq<AttachmentEntity>
  {
    e.attachmentEntities.GetOr([])
  }

  function AttachmentIds(e: EventEntity): seq<string>
  {
    Select(AttachmentsOf(e), AttachmentEntityKey)
  }

  function RowFor(e: EventEntity, a: AttachmentEntity): AttachmentRow
  {
    AttachmentRow(a.id, a.kind, a.name, a.path, e.id, e.sessionId, e.timestamp)
  }

  /** The attachment rows written for one event, one per attachment, in list order. */
  function RowsOf(e: EventEntity): seq<AttachmentRow>
  {
    seq(|AttachmentsOf(e)|, i requires 0 <= i < |AttachmentsOf(e)| => RowFor(e, AttachmentsOf(e)[i]))
  }

  /** The attachment rows of a sequence of events, in event order. */
  function AllRows(es: seq<EventEntity>): seq<AttachmentRow>
  {
    if |es| == 0 then [] else AllRows(es[..|es| - 1]) + RowsOf(es[|es| - 1])
  }

  function RowPacket(r: AttachmentRow): AttachmentPacket
  {
    AttachmentPacket(r.id, r.path)
  }

  function EntityPacket(a: AttachmentEntity): AttachmentPacket
  {
    AttachmentPacket(a.id, a.path)
  }

  /** One packet per attachment of the given events, events in order, each event's attachments in list order. */
  function AttachmentPacketsOf(es: seq<EventEntity>): seq<AttachmentPacket>
  {
    if |es| == 0 then [] else AttachmentPacketsOf(es[..|es| - 1]) + Select(AttachmentsOf(es[|es| - 1]), EntityPacket)
  }

  function PacketOf(e: EventEntity): EventPacket
  {
    EventPacket(e.id, e.sessionId, e.timestamp, e.eventType, e.serializedData, e.filePath,
                e.serializedAttachments, e.serializedAttributes)
  }

  function SizeEntry(e: EventEntity): (string, int)
  {
    (e.id, e.attachmentsSize)
  }

  function BatchRows(eventIds: seq<string>, batchId: string, createdAt: int): seq<BatchRow>
  {
    seq(|eventIds|, i requires 0 <= i < |eventIds| => BatchRow(eventIds[i], batchId, createdAt))
  }

  /** The distinct batch ids, in the order their first row was written. */
  function BatchIdsInOrder(bs: seq<BatchRow>): (r: seq<string>)
    ensures Distinct(r)
    ensures forall b :: b in r <==> exists row :: row in bs && row.batchId == b
  {
    if |bs| == 0 then []
    else
      var init, last := bs[..|bs| - 1], bs[|bs| - 1];
      assert bs == init + [last];
      var rest := BatchIdsInOrder(init);
      if last.batchId in rest then rest
      else
        assert (rest + [last.batchId])[..|rest|] == rest;
        rest + [last.batchId]
  }

  /** The events of one batch, in the order they were added. */
  function EventIdsOfBatch(bs: seq<BatchRow>, batchId: string): seq<string>
  {
    Select(Filter(bs, InBatch(batchId)), BatchEventId)
  }

  // ---------------------------------------------------------------------
  // Table invariants
  // ---------------------------------------------------------------------

  /**
   * The constraints of the schema: event, attachment and session ids are
   * primary keys, an (event, batch) pair occurs once, every batch row and
   * every attachment row belongs to a stored event, and the attachments
   * table holds exactly the rows of the stored events' attachments.
   */
  predicate ValidTables(events: seq<EventEntity>, attachments: seq<AttachmentRow>,
                        batches: seq<BatchRow>, sessions: seq<SessionRow>)
  {
    && Distinct(Select(events, EventKey))
    && attachments == AllRows(events)
    && Distinct(Select(attachments, AttachmentKey))
    && Distinct(Select(batches, BatchKey))
    && (forall b :: b in batches ==> b.eventId in Select(events, EventKey))
    && Distinct(Select(sessions, SessionKey))
  }

  lemma RowsKeys(e: EventEntity)
    ensures Select(RowsOf(e), AttachmentKey) == AttachmentIds(e)
  {
    var rows, atts := RowsOf(e), AttachmentsOf(e);
    forall i | 0 <= i < |rows| ensures Select(rows, AttachmentKey)[i] == AttachmentIds(e)[i] {
      assert rows[i] == RowFor(e, atts[i]);
      assert Select(atts, AttachmentEntityKey)[i] == AttachmentEntityKey(atts[i]);
      assert Select(rows, AttachmentKey)[i] == AttachmentKey(rows[i]);
    }
  }

  lemma AllRowsAppend(es: seq<EventEntity>, e: EventEntity)
    ensures AllRows(es + [e]) == AllRows(es) + RowsOf(e)
  {
    assert (es + [e])[..|es|] == es;
  }

  lemma RowsOfSelected(e: EventEntity, ids: set<string>, wanted: bool)
    ensures Filter(RowsOf(e), RowSelected(ids, wanted)) == if EventSelected(ids, wanted)(e) then RowsOf(e) else []
  {
    if EventSelected(ids, wanted)(e) {
      FilterKeepsAll(RowsOf(e), RowSelected(ids, wanted));
    } else {
      FilterDropsAll(RowsOf(e), RowSelected(ids, wanted));
    }
  }

  /** Selecting the rows of some events from the attachments table is the same as taking the rows of those events. */
  lemma {:induction false} FilterAllRows(es: seq<EventEntity>, ids: set<string>, wanted: bool)
    ensures Filter(AllRows(es), RowSelected(ids, wanted)) == AllRows(Filter(es, EventSelected(ids, wanted)))
    decreases |es|
  {
    if |es| > 0 {
      var init, last := es[..|es| - 1], es[|es| - 1];
      assert es == init + [last];
      FilterAllRows(init, ids, wanted);
      FilterConcat(AllRows(init), RowsOf(last), RowSelected(ids, wanted));
      RowsOfSelected(last, ids, wanted);
      var fi := Filter(init, EventSelected(ids, wanted));
      if EventSelected(ids, wanted)(last) {
        assert Filter(es, EventSelected(ids, wanted)) == fi + [last];
        AllRowsAppend(fi, last);
      } else {
        assert Filter(es, EventSelected(ids, wanted)) == fi;
      }
    }
  }

  lemma {:induction false} AllRowsPackets(es: seq<EventEntity>)
    ensures Select(AllRows(es), RowPacket) == AttachmentPacketsOf(es)
    decreases |es|
  {
    if |es| > 0 {
      var init, last := es[..|es| - 1], es[|es| - 1];
      AllRowsPackets(init);
      SelectConcat(AllRows(init), RowsOf(last), RowPacket);
      assert Select(RowsOf(last), RowPacket) == Select(AttachmentsOf(last), EntityPacket);
    }
  }

  lemma {:induction false} AllRowsEmpty(es: seq<EventEntity>)
    requires forall e :: e in es ==> AttachmentsOf(e) == []
    ensures AllRows(es) == []
    decreases |es|
  {
    if |es| > 0 {
      var init := es[..|es| - 1];
      assert forall e :: e in init ==> e in es;
      AllRowsEmpty(init);
    }
  }

  // ---------------------------------------------------------------------
  // Each transaction keeps the table invariants
  // ---------------------------------------------------------------------

  /** The conditions under which the insert transaction of `insertEvent` commits. */
  predicate CanInsertEvent(events: seq<EventEntity>, attachments: seq<AttachmentRow>, e: EventEntity)
  {
    && e.id !in Select(events, EventKey)
    && Distinct(AttachmentIds(e))
    && forall id :: id in AttachmentIds(e) ==> id !in Select(attachments, AttachmentKey)
  }

  lemma InsertEventKeepsValid(events: seq<EventEntity>, attachments: seq<AttachmentRow>,
                              batches: seq<BatchRow>, sessions: seq<SessionRow>, e: EventEntity)
    requires ValidTables(events, attachments, batches, sessions)
    requires CanInsertEvent(events, attachments, e)
    ensures ValidTables(events + [e], attachments + RowsOf(e), batches, sessions)
  {
    SelectConcat(events, [e], EventKey);
    assert Distinct(Select([e], EventKey)) by {
      assert Select([e], EventKey)[..0] == [];
    }
    DistinctConcat(Select(events, EventKey), Select([e], EventKey));
    AllRowsAppend(events, e);
    SelectConcat(attachments, RowsOf(e), AttachmentKey);
    RowsKeys(e);
    DistinctConcat(Select(attachments, AttachmentKey), AttachmentIds(e));
  }

  /** The conditions under which the insert transaction of `insertBatch` commits. */
  predicate CanInsertBatch(events: seq<EventEntity>, batches: seq<BatchRow>, eventIds: seq<string>, batchId: string)
  {
    && Distinct(eventIds)
    && (forall id :: id in eventIds ==> id in Select(events, EventKey))
    && (forall id :: id in eventIds ==> (id, batchId) !in Select(batches, BatchKey))
  }

  lemma InsertBatchKeepsValid(events: seq<EventEntity>, attachments: seq<AttachmentRow>,
                              batches: seq<BatchRow>, sessions: seq<SessionRow>,
                              eventIds: seq<string>, batchId: string, createdAt: int)
    requires ValidTables(events, attachments, batches, sessions)
    requires CanInsertBatch(events, batches, eventIds, batchId)
    ensures ValidTables(events, attachments, batches + BatchRows(eventIds, batchId, createdAt), sessions)
  {
    var added := BatchRows(eventIds, batchId, createdAt);
    var keys := Select(added, BatchKey);
    DistinctIffPairwise(eventIds);
    assert forall i, j :: 0 <= i < j < |keys| ==> keys[i] != keys[j] by {
      forall i, j | 0 <= i < j < |keys| ensures keys[i] != keys[j] {
        assert added[i] == BatchRow(eventIds[i], batchId, createdAt);
        assert added[j] == BatchRow(eventIds[j], batchId, createdAt);
        assert keys[i] == BatchKey(added[i]) && keys[j] == BatchKey(added[j]);
      }
    }
    DistinctIffPairwise(keys);
    forall k | k in keys ensures k !in Select(batches, BatchKey) {
      var i :| 0 <= i < |keys| && keys[i] == k;
      assert added[i] == BatchRow(eventIds[i], batchId, createdAt);
      assert k == BatchKey(added[i]) == (eventIds[i], batchId);
    }
    SelectConcat(batches, added, BatchKey);
    DistinctConcat(Select(batches, BatchKey), keys);
    forall b | b in added ensures b.eventId in Select(events, EventKey) {
      var i :| 0 <= i < |added| && added[i] == b;
      assert b.eventId == eventIds[i];
    }
  }

  lemma DeleteEventsKeepsValid(events: seq<EventEntity>, attachments: seq<AttachmentRow>,
                               batches: seq<BatchRow>, sessions: seq<SessionRow>, ids: set<string>)
    requires ValidTables(events, attachments, batches, sessions)
    ensures ValidTables(Filter(events, EventSelected(ids, false)),
                        Filter(attachments, RowSelected(ids, false)),
                        Filter(batches, BatchSelected(ids, false)),
                        sessions)
  {
    var kept := Filter(events, EventSelected(ids, false));
    FilterKeepsDistinct(events, EventKey, EventSelected(ids, false));
    FilterAllRows(events, ids, false);
    FilterKeepsDistinct(attachments, AttachmentKey, RowSelected(ids, false));
    FilterKeepsDistinct(batches, BatchKey, BatchSelected(ids, false));
    forall b | b in Filter(batches, BatchSelected(ids, false)) ensures b.eventId in Select(kept, EventKey) {
      SelectMember(events, EventKey, b.eventId);
      var e :| e in events && e.id == b.eventId;
      SelectMember(kept, EventKey, b.eventId);
    }
  }

  lemma FilterSessionsKeepsValid(events: seq<EventEntity>, attachments: seq<AttachmentRow>,
                                 batches: seq<BatchRow>, sessions: seq<SessionRow>, keep: SessionRow -> bool)
    requires ValidTables(events, attachments, batches, sessions)
    ensures ValidTables(events, attachments, batches, Filter(sessions, keep))
  {
    FilterKeepsDistinct(sessions, SessionKey, keep);
  }

  lemma InsertSessionKeepsValid(events: seq<EventEntity>, attachments: seq<AttachmentRow>,
                                batches: seq<BatchRow>, sessions: seq<SessionRow>, row: SessionRow)
    requires ValidTables(events, attachments, batches, sessions)
    requires row.sessionId !in Select(sessions, SessionKey)
    ensures ValidTables(events, attachments, batches, sessions + [row])
  {
    SelectConcat(sessions, [row], SessionKey);
    assert Distinct(Select([row], SessionKey)) by {
      assert Select([row], SessionKey)[..0] == [];
    }
    DistinctConcat(Select(sessions, SessionKey), Select([row], SessionKey));
  }

  lemma TakeDistinct<K>(s: seq<K>, n: nat)
    requires Distinct(s)
    ensures Distinct(Take(s, n))
    ensures forall k :: k in Take(s, n) ==> k in s
    ensures |Take(s, n)| == if n < |s| then n else |s|
  {
    var t := Take(s, n);
    assert t == s[..|t|];
    DistinctIffPairwise(s);
    DistinctIffPairwise(t);
  }

  lemma BatchMapSize(bs: seq<BatchRow>, chosen: seq<string>)
    requires Distinct(chosen)
    ensures |(map b | b in chosen :: EventIdsOfBatch(bs, b))| == |chosen|
  {
    var r := map b | b in chosen :: EventIdsOfBatch(bs, b);
    assert r.Keys == set b | b in chosen;
    DistinctCard(chosen);
  }

  // ---------------------------------------------------------------------
  // The store
  // ---------------------------------------------------------------------

  class Database {
    var events: seq<EventEntity>
    var attachments: seq<AttachmentRow>
    var batches: seq<BatchRow>
    var sessions: seq<SessionRow>

    predicate Valid()
      reads this
    {
      ValidTables(events, attachments, batches, sessions)
    }

    constructor ()
      ensures Valid()
      ensures events == [] && attachments == [] && batches == [] && sessions == []
    {
      events, attachments, batches, sessions := [], [], [], [];
    }

    function EventIds(): seq<string>
      reads this
    {
      Select(events, EventKey)
    }

    /** The ids of events that belong to some batch. */
    function BatchedIds(): set<string>
      reads this
    {
      set b | b in batches :: b.eventId
    }

    /**
     * `insertEvent`: one transaction writing the event row and one row per
     * attachment; a repeated event id or attachment id aborts all of it.
     */
    method InsertEvent(e: EventEntity) returns (ok: bool)
      requires Valid()
      modifies this
      ensures Valid()
      ensures ok == CanInsertEvent(old(events), old(attachments), e)
      ensures events == if ok then old(events) + [e] else old(events)
      ensures attachments == if ok then old(attachments) + RowsOf(e) else old(attachments)
      ensures batches == old(batches) && sessions == old(sessions)
    {
      ok := CanInsertEvent(events, attachments, e);
      if ok {
        InsertEventKeepsValid(events, attachments, batches, sessions, e);
        events := events + [e];
        attachments := attachments + RowsOf(e);
      }
    }

    /**
     * `insertBatch(eventIds, batchId, createdAt)`: one transaction writing one
     * membership row per id, in the order given; a repeated id, an id that is
     * not stored, or an (event, batch) pair already present aborts all of it.
     */
    method InsertBatch(eventIds: seq<string>, batchId: string, createdAt: int) returns (ok: bool)
      requires Valid()
      modifies this
      ensures Valid()
      ensures ok == CanInsertBatch(old(events), old(batches), eventIds, batchId)
      ensures batches == if ok then old(batches) + BatchRows(eventIds, batchId, createdAt) else old(batches)
      ensures events == old(events) && attachments == old(attachments) && sessions == old(sessions)
    {
      ok := CanInsertBatch(events, batches, eventIds, batchId);
      if ok {
        InsertBatchKeepsValid(events, attachments, batches, sessions, eventIds, batchId, createdAt);
        batches := batches + BatchRows(eventIds, batchId, createdAt);
      }
    }

    /** The single-event overload of `insertBatch`. */
    method InsertSingleBatch(eventId: string, batchId: string, createdAt: int) returns (ok: bool)
      requires Valid()
      modifies this
      ensures Valid()
      ensures ok == (eventId in old(EventIds()) && (eventId, batchId) !in Select(old(batches), BatchKey))
      ensures batches == if ok then old(batches) + [BatchRow(eventId, batchId, createdAt)] else old(batches)
      ensures events == old(events) && attachments == old(attachments) && sessions == old(sessions)
    {
      assert Distinct([eventId]) by {
        assert [eventId][..0] == [];
      }
      ok := InsertBatch([eventId], batchId, createdAt);
      assert BatchRows([eventId], batchId, createdAt) == [BatchRow(eventId, batchId, createdAt)];
    }

    /**
     * `getUnBatchedEventsWithAttachmentSize(limit)`: up to `limit` events
     * that belong to no batch, each with its attachments' total size.
     */
    function GetUnBatchedEventsWithAttachmentSize(limit: nat): (r: seq<(string, int)>)
      reads this
      ensures |r| <= limit
      ensures forall entry :: entry in r ==> entry.0 !in BatchedIds() && exists e :: e in events && SizeEntry(e) == entry
      ensures |r| < limit ==> forall e :: e in events && e.id !in BatchedIds() ==> SizeEntry(e) in r
    {
      var unbatched := Filter(events, EventSelected(BatchedIds(), false));
      SelectMembers(unbatched, SizeEntry);
      var all := Select(unbatched, SizeEntry);
      assert forall entry :: entry in Take(all, limit) ==> entry in all;
      Take(all, limit)
    }

    /** `getEventPackets(eventIds)`: the packet of every stored event among `eventIds`. */
    function GetEventPackets(eventIds: seq<string>): (r: seq<EventPacket>)
      reads this
      ensures forall p :: p in r ==> p.eventId in eventIds && exists e :: e in events && PacketOf(e) == p
      ensures forall e :: e in events && e.id in eventIds ==> PacketOf(e) in r
    {
      var chosen := Filter(events, EventSelected(IdSet(eventIds), true));
      SelectMembers(chosen, PacketOf);
      Select(chosen, PacketOf)
    }

    /** `getEventPacket(eventId)`: the packet of the stored event with that id, if any. */
    function GetEventPacket(eventId: string): (r: Option<EventPacket>)
      reads this
      ensures r.Some? <==> eventId in EventIds()
      ensures r.Some? ==> r.value.eventId == eventId && exists e :: e in events && PacketOf(e) == r.value
    {
      var chosen := Filter(events, EventSelected({eventId}, true));
      SelectMember(events, EventKey, eventId);
      if |chosen| == 0 then None
      else
        assert chosen[0] in chosen;
        Some(PacketOf(chosen[0]))
    }

    /** `getAttachmentPackets(eventIds)`: a packet for every attachment row of the given events. */
    function GetAttachmentPackets(eventIds: seq<string>): (r: seq<AttachmentPacket>)
      reads this
      ensures forall p :: p in r ==> exists row :: row in attachments && row.eventId in eventIds && RowPacket(row) == p
      ensures forall row :: row in attachments && row.eventId in eventIds ==> RowPacket(row) in r
    {
      var chosen := Filter(attachments, RowSelected(IdSet(eventIds), true));
      SelectMembers(chosen, RowPacket);
      Select(chosen, RowPacket)
    }

    /** `getAttachmentPacket(eventId)`: the attachment packets of one event. */
    function GetAttachmentPacket(eventId: string): (r: seq<AttachmentPacket>)
      reads this
      ensures forall p :: p in r ==> exists row :: row in attachments && row.eventId == eventId && RowPacket(row) == p
      ensures forall row :: row in attachments && row.eventId == eventId ==> RowPacket(row) in r
    {
      GetAttachmentPackets([eventId])
    }

    /** `getBatches(limit)`: up to `limit` batches, each with the ids of its events. */
    function GetBatches(limit: nat): (r: map<string, seq<string>>)
      reads this
      ensures |r| == if limit < |BatchIdsInOrder(batches)| then limit else |BatchIdsInOrder(batches)|
      ensures forall b :: b in r ==> (exists row :: row in batches && row.batchId == b) && r[b] == EventIdsOfBatch(batches, b)
    {
      var chosen := Take(BatchIdsInOrder(batches), limit);
      TakeDistinct(BatchIdsInOrder(batches), limit);
      BatchMapSize(batches, chosen);
      map b | b in chosen :: EventIdsOfBatch(batches, b)
    }

    function GetEventsCount(): nat
      reads this
    {
      |events|
    }

    function GetBatchesCount(): nat
      reads this
    {
      |BatchIdsInOrder(batches)|
    }

    /**
     * `deleteEvents(eventIds)`: removes the named events with their
     * attachment rows and batch rows, and nothing else.
     */
    method DeleteEvents(eventIds: seq<string>)
      requires Valid()
      modifies this
      ensures Valid()
      ensures events == Filter(old(events), EventSelected(IdSet(eventIds), false))
      ensures attachments == Filter(old(attachments), RowSelected(IdSet(eventIds), false))
      ensures batches == Filter(old(batches), BatchSelected(IdSet(eventIds), false))
      ensures sessions == old(sessions)
    {
      var ids := IdSet(eventIds);
      DeleteEventsKeepsValid(events, attachments, batches, sessions, ids);
      events, attachments, batches :=
        Filter(events, EventSelected(ids, false)),
        Filter(attachments, RowSelected(ids, false)),
        Filter(batches, BatchSelected(ids, false));
    }

    /** `deleteEvent(eventId)`. */
    method DeleteEvent(eventId: string)
      requires Valid()
      modifies this
      ensures Valid()
      ensures events == Filter(old(events), EventSelected({eventId}, false))
      ensures attachments == Filter(old(attachments), RowSelected({eventId}, false))
      ensures batches == Filter(old(batches), BatchSelected({eventId}, false))
      ensures sessions == old(sessions)
    {
      assert IdSet([eventId]) == {eventId};
      DeleteEvents([eventId]);
    }

    /** `insertSession(sessionId, pid, createdAt)`: a session id is stored at most once. */
    method InsertSession(sessionId: string, pid: int, createdAt: int) returns (ok: bool)
      requires Valid()
      modifies this
      ensures Valid()
      ensures ok == (sessionId !in Select(old(sessions), SessionKey))
      ensures sessions == if ok then old(sessions) + [SessionRow(sessionId, pid, createdAt)] else old(sessions)
      ensures events == old(events) && attachments == old(attachments) && batches == old(batches)
    {
      ok := sessionId !in Select(sessions, SessionKey);
      if ok {
        InsertSessionKeepsValid(events, attachments, batches, sessions, SessionRow(sessionId, pid, createdAt));
        sessions := sessions + [SessionRow(sessionId, pid, createdAt)];
      }
    }

    function GetSessions(): seq<SessionRow>
      reads this
    {
      sessions
    }

    /** `deleteSession(sessionId)`: removes that session and no other. */
    method DeleteSession(sessionId: string)
      requires Valid()
      modifies this
      ensures Valid()
      ensures sessions == Filter(old(sessions), OtherSession(sessionId))
      ensures forall s :: s in sessions <==> s in old(sessions) && s.sessionId != sessionId
      ensures events == old(events) && attachments == old(attachments) && batches == old(batches)
    {
      FilterSessionsKeepsValid(events, attachments, batches, sessions, OtherSession(sessionId));
      sessions := Filter(sessions, OtherSession(sessionId));
    }

    /** `clearOldSessions(createdAt)`: removes the sessions created before that time, keeps the rest. */
    method ClearOldSessions(createdAt: int)
      requires Valid()
      modifies this
      ensures Valid()
      ensures sessions == Filter(old(sessions), CreatedFrom(createdAt))
      ensures forall s :: s in sessions <==> s in old(sessions) && s.createdAt >= createdAt
      ensures events == old(events) && attachments == old(attachments) && batches == old(batches)
    {
      FilterSessionsKeepsValid(events, attachments, batches, sessions, CreatedFrom(createdAt));
      sessions := Filter(sessions, CreatedFrom(createdAt));
    }
  }

  // ---------------------------------------------------------------------
  // What the tables promise
  // ---------------------------------------------------------------------

  /** `r` is the stored copy of one of `e`'s attachments, carrying `e`'s id, session and timestamp. */
  predicate RowOfEvent(e: EventEntity, r: AttachmentRow)
  {
    exists a :: a in AttachmentsOf(e) && r == RowFor(e, a)
  }

  lemma {:induction false} AllRowsHaveParents(es: seq<EventEntity>)
    ensures forall r :: r in AllRows(es) ==> exists e :: e in es && RowOfEvent(e, r)
    decreases |es|
  {
    if |es| > 0 {
      var init, last := es[..|es| - 1], es[|es| - 1];
      AllRowsHaveParents(init);
      forall r | r in AllRows(es) ensures exists e :: e in es && RowOfEvent(e, r) {
        if r in AllRows(init) {
          var e :| e in init && RowOfEvent(e, r);
          assert e in es;
        } else {
          assert r in RowsOf(last);
          var i :| 0 <= i < |RowsOf(last)| && RowsOf(last)[i] == r;
          assert AttachmentsOf(last)[i] in AttachmentsOf(last);
          assert RowOfEvent(last, r);
        }
      }
    }
  }

  /** Every attachment row belongs to a stored event and carries that event's id, session id and timestamp. */
  lemma AttachmentRowsBelongToEvents(db: Database)
    requires db.Valid()
    ensures forall r :: r in db.attachments ==> exists e :: e in db.events && RowOfEvent(e, r)
  {
    AllRowsHaveParents(db.events);
  }

  /** Event ids are a primary key: no two stored rows share one. */
  lemma EventIdsArePrimaryKey(db: Database)
    requires db.Valid()
    ensures forall i, j :: 0 <= i < j < |db.events| ==> db.events[i].id != db.events[j].id
  {
    DistinctIffPairwise(db.EventIds());
    forall i, j | 0 <= i < j < |db.events| ensures db.events[i].id != db.events[j].id {
      assert db.EventIds()[i] == EventKey(db.events[i]);
      assert db.EventIds()[j] == EventKey(db.events[j]);
    }
  }

  /**
   * The attachment packets of some events are their attachments, one per
   * attachment, events in table order, each event's attachments in list order.
   */
  lemma AttachmentPacketsFollowEvents(db: Database, eventIds: seq<string>)
    requires db.Valid()
    ensures db.GetAttachmentPackets(eventIds)
         == AttachmentPacketsOf(Filter(db.events, EventSelected(IdSet(eventIds), true)))
  {
    var ids := IdSet(eventIds);
    FilterAllRows(db.events, ids, true);
    AllRowsPackets(Filter(db.events, EventSelected(ids, true)));
  }

  /**
   * The event packets of some events are the packets of the stored events
   * asked for, one per stored event, in table order.
   */
  lemma EventPacketsFollowEvents(db: Database, eventIds: seq<string>)
    ensures var r := db.GetEventPackets(eventIds);
      exists idx: seq<int> ::
        && |idx| == |r|
        && (forall k, l :: 0 <= k < l < |idx| ==> idx[k] < idx[l])
        && (forall k :: 0 <= k < |idx| ==>
              0 <= idx[k] < |db.events| && db.events[idx[k]].id in eventIds && r[k] == PacketOf(db.events[idx[k]]))
        && (forall i :: 0 <= i < |db.events| && db.events[i].id in eventIds ==> i in idx)
  {
    var keep := EventSelected(IdSet(eventIds), true);
    FilterByIndices(db.events, keep);
    var idx := KeptIndices(db.events, keep);
    var chosen := Filter(db.events, keep);
    var r := db.GetEventPackets(eventIds);
    assert r == Select(chosen, PacketOf);
    forall k | 0 <= k < |idx|
      ensures 0 <= idx[k] < |db.events| && db.events[idx[k]].id in eventIds && r[k] == PacketOf(db.events[idx[k]])
    {
      assert chosen[k] == db.events[idx[k]];
      assert chosen[k] in chosen;
    }
  }

  /** Asking for every stored id gives every stored event's packet, one each, in table order. */
  lemma EventPacketsOfAllStored(db: Database, eventIds: seq<string>)
    requires db.Valid()
    requires forall e :: e in db.events ==> e.id in eventIds
    ensures |db.GetEventPackets(eventIds)| == |db.events|
    ensures forall i :: 0 <= i < |db.events| ==> db.GetEventPackets(eventIds)[i] == PacketOf(db.events[i])
  {
    FilterKeepsAll(db.events, EventSelected(IdSet(eventIds), true));
  }

  /** When no stored event has attachments, there are no attachment packets. */
  lemma NoAttachmentsNoPackets(db: Database, eventIds: seq<string>)
    requires db.Valid()
    requires forall e :: e in db.events ==> AttachmentsOf(e) == []
    ensures db.GetAttachmentPackets(eventIds) == []
  {
    AllRowsEmpty(db.events);
    assert db.attachments == [];
  }
}
