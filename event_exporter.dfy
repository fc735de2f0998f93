/**
 * Exporting one event (the contract asserted by
 * measure-android/.../exporter/EventExporterTest.kt): the event is put in a
 * fresh batch, the batch is sent, and only a delivered batch is removed from
 * the store and from file storage. The id provider, the clock and the network
 * client's verdict are parameters of `Export`.
 */
module EventExporter {
  import opened LocalStore

  /** One call of `fileStorage.deleteEventIfExist(eventId, attachmentIds)`. */
  datatype FileDeletion = FileDeletion(eventId: string, attachmentIds: seq<string>)

  /** One call of `networkClient.execute(batchId, eventPackets, attachmentPackets)`. */
  datatype Delivery = Delivery(batchId: string, eventPackets: seq<EventPacket>, attachmentPackets: seq<AttachmentPacket>)

  function PacketId(p: AttachmentPacket): string { p.id }

  /** A stored id selects exactly its own row. */
  lemma {:induction false} KeySelectsOneRow(es: seq<EventEntity>, e: EventEntity)
    requires Distinct(Select(es, EventKey))
    requires e in es
    ensures Filter(es, EventSelected({e.id}, true)) == [e]
    decreases |es|
  {
    var init, last := es[..|es| - 1], es[|es| - 1];
    assert es == init + [last];
    assert Select(es, EventKey)[..|es| - 1] == Select(init, EventKey);
    assert Select(es, EventKey)[|es| - 1] == last.id;
    if last == e {
      SelectMembers(init, EventKey);
      FilterDropsAll(init, EventSelected({e.id}, true));
    } else {
      SelectMembers(init, EventKey);
      KeySelectsOneRow(init, e);
    }
  }

  /** The ids of the attachment rows stored for the event `eventId`, as the exporter reads them back. */
  function StoredAttachmentIds(events: seq<EventEntity>, eventId: string): seq<string>
  {
    Select(AttachmentPacketsOf(Filter(events, EventSelected({eventId}, true))), PacketId)
  }

  /** For a stored event those are exactly the ids of its own attachments. */
  lemma StoredAttachmentIdsOf(events: seq<EventEntity>, e: EventEntity)
    requires Distinct(Select(events, EventKey))
    requires e in events
    ensures StoredAttachmentIds(events, e.id) == AttachmentIds(e)
  {
    KeySelectsOneRow(events, e);
    assert AttachmentPacketsOf([e]) == Select(AttachmentsOf(e), EntityPacket) by {
      assert [e][..0] == [];
    }
    var atts := AttachmentsOf(e);
    forall i | 0 <= i < |atts|
      ensures Select(Select(atts, EntityPacket), PacketId)[i] == AttachmentIds(e)[i]
    {
      assert Select(atts, EntityPacket)[i] == EntityPacket(atts[i]);
      assert Select(Select(atts, EntityPacket), PacketId)[i] == PacketId(Select(atts, EntityPacket)[i]);
      assert AttachmentIds(e)[i] == AttachmentEntityKey(atts[i]);
    }
  }

  class EventExporterImpl {
    const database: Database
    /** The batches handed to the network client, in order. */
    var deliveries: seq<Delivery>
    /** The calls made to file storage, in order. */
    var deletedFiles: seq<FileDeletion>

    constructor (database: Database)
      ensures this.database == database
      ensures deliveries == [] && deletedFiles == []
    {
      this.database := database;
      deliveries, deletedFiles := [], [];
    }

    /**
     * `export(event)`: create batch `batchId` holding the event, send it, and
     * if the network client reports success delete the event (with its
     * attachment and batch rows) and its files; otherwise keep everything so
     * the batch can be retried. A batch that cannot be created is not sent.
     */
    method Export(eventId: string, batchId: string, createdAt: int, delivered: bool) returns (ghost created: bool)
      requires database.Valid()
      modifies this, database
      ensures database.Valid()
      ensures created == CanInsertBatch(old(database.events), old(database.batches), [eventId], batchId)
      ensures database.sessions == old(database.sessions)
      ensures !created ==>
        && database.events == old(database.events)
        && database.batches == old(database.batches)
        && deliveries == old(deliveries)
        && deletedFiles == old(deletedFiles)
      ensures created ==> |deliveries| == |old(deliveries)| + 1 && deliveries[..|old(deliveries)|] == old(deliveries)
      ensures created ==>
        deliveries[|old(deliveries)|] == Delivery(batchId, old(database.GetEventPackets([eventId])), old(database.GetAttachmentPackets([eventId])))
      ensures created && delivered ==>
        && database.events == Filter(old(database.events), EventSelected({eventId}, false))
        && database.batches == Filter(old(database.batches), BatchSelected({eventId}, false))
      ensures created && delivered ==>
        deletedFiles == old(deletedFiles) + [FileDeletion(eventId, StoredAttachmentIds(old(database.events), eventId))]
      ensures created && !delivered ==>
        && database.events == old(database.events)
        && database.batches == old(database.batches) + [BatchRow(eventId, batchId, createdAt)]
        && deletedFiles == old(deletedFiles)
    {
      var ok := database.InsertBatch([eventId], batchId, createdAt);
      created := ok;
      if !ok {
        return;
      }
      assert BatchRows([eventId], batchId, createdAt) == [BatchRow(eventId, batchId, createdAt)];
      var eventPackets := database.GetEventPackets([eventId]);
      var attachmentPackets := database.GetAttachmentPackets([eventId]);
      deliveries := deliveries + [Delivery(batchId, eventPackets, attachmentPackets)];
      if delivered {
        AttachmentPacketsFollowEvents(database, [eventId]);
        assert IdSet([eventId]) == {eventId};
        database.DeleteEvent(eventId);
        deletedFiles := deletedFiles + [FileDeletion(eventId, Select(attachmentPackets, PacketId))];
      }
    }
  }

  /** A store holding `e` alone, as left by inserting it into a new store. */
  method StoreWithOneEvent(e: EventEntity) returns (db: Database)
    requires Distinct(AttachmentIds(e))
    ensures fresh(db) && db.Valid()
    ensures db.events == [e] && db.batches == []
  {
    db := new Database();
    var inserted := db.InsertEvent(e);
    assert Select([e], EventKey) == [e.id];
    assert Distinct([e.id]) by {
      assert [e.id][..0] == [];
    }
    assert CanInsertBatch([e], [], [e.id], "");
  }

  /** A delivered export into a store holding only the event leaves no event and no batch. */
  method DeliveredExportEmptiesStore(e: EventEntity, batchId: string, createdAt: int)
    returns (eventsCount: nat, batchesCount: nat, deletions: seq<FileDeletion>)
    requires Distinct(AttachmentIds(e))
    ensures eventsCount == 0 && batchesCount == 0
    ensures deletions == [FileDeletion(e.id, AttachmentIds(e))]
  {
    var db := StoreWithOneEvent(e);
    StoredAttachmentIdsOf([e], e);
    assert Select(db.events, EventKey) == [e.id];
    assert CanInsertBatch(db.events, db.batches, [e.id], batchId);
    var exporter := new EventExporterImpl(db);
    ghost var created := exporter.Export(e.id, batchId, createdAt, true);
    eventsCount, batchesCount := db.GetEventsCount(), db.GetBatchesCount();
    deletions := exporter.deletedFiles;
  }

  /** A failed export into a store holding only the event keeps the event and exactly one batch. */
  method FailedExportKeepsBatch(e: EventEntity, batchId: string, createdAt: int)
    returns (eventsCount: nat, batchesCount: nat, deletions: seq<FileDeletion>)
    requires Distinct(AttachmentIds(e))
    ensures eventsCount == 1 && batchesCount == 1
    ensures deletions == []
  {
    var db := StoreWithOneEvent(e);
    assert Select(db.events, EventKey) == [e.id];
    assert CanInsertBatch(db.events, db.batches, [e.id], batchId);
    var exporter := new EventExporterImpl(db);
    ghost var created := exporter.Export(e.id, batchId, createdAt, false);
    assert db.batches == [] + [BatchRow(e.id, batchId, createdAt)];
    assert BatchIdsInOrder(db.batches) == [batchId];
    eventsCount, batchesCount := db.GetEventsCount(), db.GetBatchesCount();
    deletions := exporter.deletedFiles;
  }
}
