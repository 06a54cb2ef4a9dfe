/** The in-memory context store: an event table, a revision fence per source record, documents. */
module ContextStore {
  import opened Prelude
  import opened Domain
  import opened StableIds

  datatype DocumentKey = DocumentKey(tenant: string, chunk: string)

  datatype Fingerprint = Fingerprint(version: nat, operation: Operation, contentHash: string)

  datatype Revision = Revision(version: nat, eventId: string, contentHash: string)

  datatype StoreState = StoreState(
    documents: map<DocumentKey, ContextDocument>,
    events: map<string, Fingerprint>,
    revisions: map<SourceKey, Revision>)

  const EMPTY := StoreState(map[], map[], map[])

  function DocumentKeyOf(d: ContextDocument): DocumentKey {
    DocumentKey(d.tenantId, d.chunkId)
  }

  function ContentHash(change: Change): string {
    if change.document.Some? then change.document.value.lineage.contentHash else "<tombstone>"
  }

  function FingerprintOf(change: Change): Fingerprint {
    Fingerprint(change.event.sourceVersion, change.event.operation, ContentHash(change))
  }

  function EventCollision(previous: Fingerprint, current: Fingerprint): Disposition {
    if previous == current then Duplicate else RevisionConflict
  }

  function RevisionDisposition(version: nat, previous: Option<Revision>): Option<Disposition> {
    if previous.None? || version > previous.value.version then None
    else if version == previous.value.version then Some(RevisionConflict)
    else Some(OutOfOrder)
  }

  function Lookup<K, V>(m: map<K, V>, k: K): Option<V> {
    if k in m then Some(m[k]) else None
  }

  // None means the change is to be applied.
  function Classify(s: StoreState, change: Change): Option<Disposition> {
    var e := change.event;
    if e.eventId in s.events then Some(EventCollision(s.events[e.eventId], FingerprintOf(change)))
    else RevisionDisposition(e.sourceVersion, Lookup(s.revisions, KeyOf(e)))
  }

  // Validity's constructor refuses an end before the start.
  predicate CanTombstone(d: ContextDocument, e: ChangeEvent) {
    d.validity.validFrom.None? || d.validity.validFrom.value <= e.occurredAt
  }

  function Tombstoned(d: ContextDocument, e: ChangeEvent): ContextDocument {
    d.(source := d.source.(version := Decimal(e.sourceVersion)),
       validity := Validity(e.occurredAt, e.occurredAt, d.validity.validFrom, Some(e.occurredAt), true),
       lineage := d.lineage.(eventId := e.eventId))
  }

  predicate AllTombstonable(documents: map<DocumentKey, ContextDocument>, e: ChangeEvent) {
    forall k :: k in documents && RecordOf(documents[k]) == KeyOf(e) ==> CanTombstone(documents[k], e)
  }

  function TombstoneAll(documents: map<DocumentKey, ContextDocument>, e: ChangeEvent)
    : map<DocumentKey, ContextDocument>
  {
    map k | k in documents ::
      if RecordOf(documents[k]) == KeyOf(e) then Tombstoned(documents[k], e) else documents[k]
  }

  // A tombstone pass that was cut short: some matching documents are done, the rest untouched.
  predicate PartlyTombstoned(
    before: map<DocumentKey, ContextDocument>, after: map<DocumentKey, ContextDocument>, e: ChangeEvent)
  {
    && after.Keys == before.Keys
    && forall k :: k in before ==>
         || after[k] == before[k]
         || (RecordOf(before[k]) == KeyOf(e) && CanTombstone(before[k], e) && after[k] == Tombstoned(before[k], e))
  }

  function WithRevision(s: StoreState, change: Change): StoreState {
    var e := change.event;
    s.(revisions := s.revisions[KeyOf(e) := Revision(e.sourceVersion, e.eventId, ContentHash(change))],
       events := s.events[e.eventId := FingerprintOf(change)])
  }

  // What one apply_change may do to the store and answer.
  predicate ApplyStep(s: StoreState, change: Change, s': StoreState, r: Result<Disposition>) {
    match Classify(s, change)
    case Some(disposition) => s' == s && r == Ok(disposition)
    case None =>
      if change.event.operation.Upsert? then
        match change.document
        case None => s' == s && r == Raise(ValueError)
        case Some(d) =>
          && s' == WithRevision(s.(documents := s.documents[DocumentKeyOf(d) := d]), change)
          && r == Ok(Applied)
      else if AllTombstonable(s.documents, change.event) then
        && s' == WithRevision(s.(documents := TombstoneAll(s.documents, change.event)), change)
        && r == Ok(Applied)
      else
        && s' == s.(documents := s'.documents)
        && PartlyTombstoned(s.documents, s'.documents, change.event)
        && r == Raise(ValueError)
  }

  // What one ingest call may do: an unpaired change is refused before it reaches the store.
  predicate IngestStep(s: StoreState, change: Change, s': StoreState, r: Result<Disposition>) {
    if Paired(change) then ApplyStep(s, change, s', r) else s' == s && r == Raise(ValueError)
  }

  class InMemoryContextStore {
    var documents: map<DocumentKey, ContextDocument>
    var events: map<string, Fingerprint>
    var revisions: map<SourceKey, Revision>

    ghost function State(): StoreState
      reads this
    {
      StoreState(documents, events, revisions)
    }

    constructor ()
      ensures State() == EMPTY
    {
      documents, events, revisions := map[], map[], map[];
    }

    method Ingest(change: Change) returns (r: Result<Disposition>)
      modifies this
      ensures IngestStep(old(State()), change, State(), r)
    {
      if !Paired(change) {
        return Raise(ValueError);
      }
      r := ApplyChange(change);
    }

    method ApplyChange(change: Change) returns (r: Result<Disposition>)
      modifies this
      ensures ApplyStep(old(State()), change, State(), r)
    {
      var e := change.event;
      var disposition := Classify(StoreState(documents, events, revisions), change);
      if disposition.Some? {
        return Ok(disposition.value);
      }
      if e.operation.Upsert? {
        if change.document.None? {
          return Raise(ValueError);
        }
        var d := change.document.value;
        documents := documents[DocumentKeyOf(d) := d];
      } else {
        var done := Tombstone(e);
        if !done {
          return Raise(ValueError);
        }
      }
      revisions := revisions[KeyOf(e) := Revision(e.sourceVersion, e.eventId, ContentHash(change))];
      events := events[e.eventId := FingerprintOf(change)];
      return Ok(Applied);
    }

    // The loop visits the documents in any order; the first refused validity interval stops it.
    method Tombstone(e: ChangeEvent) returns (done: bool)
      modifies this`documents
      ensures done == AllTombstonable(old(documents), e)
      ensures done ==> documents == TombstoneAll(old(documents), e)
      ensures !done ==> PartlyTombstoned(old(documents), documents, e)
    {
      var pending := documents.Keys;
      while pending != {}
        invariant pending <= old(documents).Keys == documents.Keys
        invariant forall k :: k in pending ==> documents[k] == old(documents)[k]
        invariant forall k :: k in documents && k !in pending && RecordOf(old(documents)[k]) == KeyOf(e) ==>
                    CanTombstone(old(documents)[k], e)
        invariant forall k :: k in documents && k !in pending ==>
                    documents[k] == TombstoneAll(old(documents), e)[k]
        decreases pending
      {
        var k :| k in pending;
        pending := pending - {k};
        var d := documents[k];
        if RecordOf(d) != KeyOf(e) {
          continue;
        }
        if !CanTombstone(d, e) {
          return false;
        }
        documents := documents[k := Tombstoned(d, e)];
      }
      return true;
    }
  }
}
