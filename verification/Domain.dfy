/** Source changes, context documents and the checks that pair them. Times are integers. */
module Domain {
  import opened Prelude
  import opened StableIds

  datatype Operation = Upsert | Delete

  datatype Disposition = Applied | Duplicate | OutOfOrder | RevisionConflict

  datatype Trust = Untrusted | UserAsserted | Verified

  datatype SourceRef = SourceRef(system: string, resource: string, recordId: string, uri: string, version: string)

  datatype Validity = Validity(
    sourceUpdatedAt: int, indexedAt: int, validFrom: Option<int>, validTo: Option<int>, isDeleted: bool)

  datatype Governance = Governance(
    classification: string, policyTags: seq<string>, allowedPurposes: seq<string>,
    region: string, retentionClass: string)

  datatype Lineage = Lineage(eventId: string, pipelineVersion: string, embeddingModel: string, contentHash: string)

  datatype ContextDocument = ContextDocument(
    documentId: string, chunkId: string, tenantId: string, domain: string, entityType: string,
    title: string, content: string, contentVector: seq<real>, keywords: seq<string>,
    source: SourceRef, validity: Validity, governance: Governance, lineage: Lineage, trust: Trust)

  datatype ChangeEvent = ChangeEvent(
    eventId: string, tenantId: string, source: string, partitionKey: string,
    operation: Operation, sourceVersion: nat, occurredAt: int)

  // The identity every revision fence is kept under.
  datatype SourceKey = SourceKey(tenant: string, source: string, record: string)

  function KeyOf(event: ChangeEvent): SourceKey {
    SourceKey(event.tenantId, event.source, event.partitionKey)
  }

  function RecordOf(document: ContextDocument): SourceKey {
    SourceKey(document.tenantId, document.source.system, document.source.recordId)
  }

  // One call of CdcIngestor.ingest.
  datatype Change = Change(event: ChangeEvent, document: Option<ContextDocument>)

  // The checks CdcIngestor makes before it hands the change to its sink.
  predicate Paired(change: Change) {
    && (change.event.operation.Upsert? <==> change.document.Some?)
    && (change.document.Some? ==>
          var d, e := change.document.value, change.event;
          && RecordOf(d) == KeyOf(e)
          && d.lineage.eventId == e.eventId
          && d.source.version == Decimal(e.sourceVersion))
  }
}
