/** What one Debezium event asks of the index: parsing, validation and the canonical row. */
module IndexerPlan {
  import opened Prelude
  import opened Domain
  import opened StableIds
  import opened CanonicalIndex

  // A field whose absence (or null) and whose having another type are told apart.
  datatype TextField = Absent | IllTyped | Given(value: string)

  // JSON objects with the fields the worker reads; of the other fields an absent or mistyped one is None.
  datatype TableRow = TableRow(
    sku: Option<string>, brand: Option<string>, market: Option<string>, title: Option<string>,
    content: Option<string>, classification: Option<string>, allowedPurposes: Option<seq<string>>,
    sourceVersion: Option<int>, updatedAt: Option<int>,
    maxDiscountPercent: Option<int>, availableToPromise: Option<int>,
    carrierCutoffOpen: Option<bool>, addressHold: Option<bool>, riskHold: Option<bool>,
    showcaseRunId: TextField, showcaseCorrelationId: TextField)

  datatype SourceMeta = SourceMeta(
    name: Option<string>, connector: Option<string>, table: Option<string>, lsn: Option<int>)

  datatype RawEvent = RawEvent(
    op: Option<string>, before: Option<TableRow>, after: Option<TableRow>, source: Option<SourceMeta>,
    tsMs: Option<int>)

  datatype Normalized = Normalized(
    operation: Operation, record: TableRow, source: string, resource: string, recordId: string,
    sourceVersion: int, orderingVersion: int, occurredAt: int)

  datatype Facts =
    | PricingFacts(sku: string, maxDiscountPercent: int, sourceVersion: int)
    | FulfillmentFacts(
        sku: string, availableToPromise: int, carrierCutoffOpen: bool, addressHold: bool, riskHold: bool,
        sourceVersion: int)

  datatype IndexDocument = IndexDocument(
    documentId: string, chunkId: string, tenantId: string, domain: string, entityType: string,
    title: string, content: string, contentVector: seq<real>, keywords: seq<string>,
    source: SourceRef, validity: Validity, governance: Governance, lineage: Lineage,
    trustClass: string, facts: Option<Facts>)

  // The tenant, embedding model and deterministic embedder of one worker.
  datatype Config = Config(tenant: string, model: string, embed: string -> seq<real>)

  const VECTOR_DIMENSIONS := 384
  const MAX_DISCOUNT_PERCENT := 100

  predicate Complete(r: TableRow) {
    && r.sku.Some? && r.brand.Some? && r.market.Some? && r.title.Some? && r.content.Some?
    && r.classification.Some? && r.sourceVersion.Some? && r.updatedAt.Some?
    && r.allowedPurposes.Some? && r.allowedPurposes.value != []
  }

  function SourceName(m: SourceMeta): Option<string> {
    if m.name.Some? && m.name.value != "" then m.name else m.connector
  }

  function OrderingVersion(m: SourceMeta, sourceVersion: int): int {
    if m.lsn.Some? && m.lsn.value > 0 then m.lsn.value else sourceVersion
  }

  function Parse(event: RawEvent): (r: Result<Normalized>)
    ensures r.Ok? ==> Complete(r.value.record)
  {
    if event.op.None? then Raise(KeyError)
    else if event.op.value !in ["c", "r", "u", "d"] then Raise(ValueError)
    else
      var deletion := event.op.value == "d";
      var row := if deletion then event.before else event.after;
      if row.None? || event.source.None? || !Complete(row.value) then Raise(ValueError)
      else
        var r, m := row.value, event.source.value;
        if SourceName(m).None? || m.table.None? then Raise(KeyError)
        else if event.tsMs.None? then Raise(ValueError)
        else
          Ok(Normalized(
            if deletion then Delete else Upsert, r, SourceName(m).value, m.table.value, r.sku.value,
            r.sourceVersion.value, OrderingVersion(m, r.sourceVersion.value), event.tsMs.value))
  }

  function PricingFactsOf(r: TableRow, sourceVersion: int): Result<Facts>
    requires Complete(r)
  {
    if r.maxDiscountPercent.None? || !(0 <= r.maxDiscountPercent.value <= MAX_DISCOUNT_PERCENT) then Raise(ValueError)
    else Ok(PricingFacts(r.sku.value, r.maxDiscountPercent.value, sourceVersion))
  }

  function FulfillmentFactsOf(r: TableRow, sourceVersion: int): Result<Facts>
    requires Complete(r)
  {
    if r.availableToPromise.None? || r.availableToPromise.value < 0
       || r.carrierCutoffOpen.None? || r.addressHold.None? || r.riskHold.None? then Raise(ValueError)
    else Ok(FulfillmentFacts(
      r.sku.value, r.availableToPromise.value, r.carrierCutoffOpen.value, r.addressHold.value, r.riskHold.value,
      sourceVersion))
  }

  function FactsOf(s: Normalized): Result<Option<Facts>>
    requires Complete(s.record)
  {
    if s.resource == "pricing_rules" then
      match PricingFactsOf(s.record, s.sourceVersion)
      case Raise(e) => Raise(e)
      case Ok(f) => Ok(Some(f))
    else if s.resource == "fulfillment_rules" then
      match FulfillmentFactsOf(s.record, s.sourceVersion)
      case Raise(e) => Raise(e)
      case Ok(f) => Ok(Some(f))
    else Ok(None)
  }

  function DomainFor(resource: string): string {
    if resource == "pricing_rules" then "pricing"
    else if resource == "fulfillment_rules" then "fulfillment" else "source"
  }

  function EntityTypeFor(resource: string): string {
    if resource == "pricing_rules" then "pricing_rule"
    else if resource == "fulfillment_rules" then "fulfillment_rule" else "source_record"
  }

  function Integer(n: int): string {
    if n < 0 then "-" + Decimal(-n) else Decimal(n)
  }

  function EventId(s: Normalized): string {
    "evt_" + Digest(s.source + ":" + s.resource + ":" + s.recordId + ":" + Integer(s.sourceVersion))
  }

  function DocumentIdOf(s: Normalized): string {
    DocumentId(s.source, s.resource, s.recordId)
  }

  // One chunk per record, at a stable position: the id does not depend on the content.
  function ChunkIdOf(s: Normalized): string {
    ChunkId(DocumentIdOf(s), 0, "stable-ordinal-v1").value
  }

  function ContentDigest(s: Normalized): string
    requires Complete(s.record)
  {
    Digest(s.record.content.value)
  }

  function DocumentFor(cfg: Config, s: Normalized, vector: seq<real>): Result<IndexDocument>
    requires Complete(s.record)
  {
    var r := s.record;
    match FactsOf(s)
    case Raise(e) => Raise(e)
    case Ok(facts) =>
      Ok(IndexDocument(
        DocumentIdOf(s), ChunkIdOf(s), cfg.tenant, DomainFor(s.resource), EntityTypeFor(s.resource),
        r.title.value, r.content.value, vector, [r.sku.value, r.brand.value, r.market.value],
        SourceRef(s.source, s.resource, s.recordId,
                  "postgres://" + s.source + "/" + s.resource + "/" + s.recordId, Integer(s.sourceVersion)),
        Validity(r.updatedAt.value, s.occurredAt, Some(r.updatedAt.value), None, false),
        Governance(r.classification.value, [], r.allowedPurposes.value, r.market.value, "R1"),
        Lineage(EventId(s), "retail-pricing.v1", cfg.model, "sha256:" + ContentDigest(s)),
        "source-derived", facts))
  }

  function RedactedFor(cfg: Config, s: Normalized): Result<IndexDocument>
    requires Complete(s.record)
  {
    match DocumentFor(cfg, s, seq(VECTOR_DIMENSIONS, _ => 0.0))
    case Raise(e) => Raise(e)
    case Ok(d) =>
      Ok(d.(title := "Deleted context", content := "Deleted", keywords := [],
            validity := d.validity.(isDeleted := true, validTo := Some(s.occurredAt))))
  }

  // The run a change was stamped with, if any; one stamp without the other is malformed.
  datatype Stamp = Stamp(runId: string, correlationId: string)

  predicate NonEmpty(f: TextField) {
    f.Given? && f.value != ""
  }

  function ShowcaseMetadata(r: TableRow): Result<Option<Stamp>> {
    if r.showcaseRunId.Absent? && r.showcaseCorrelationId.Absent? then Ok(None)
    else if !NonEmpty(r.showcaseRunId) || !NonEmpty(r.showcaseCorrelationId) then Raise(ValueError)
    else Ok(Some(Stamp(r.showcaseRunId.value, r.showcaseCorrelationId.value)))
  }

  datatype Projection = Projection(source: Normalized, documentId: string, stamp: Stamp)

  // The index write an event asks for, and the announcement owed once it is acknowledged.
  datatype Job = Job(write: Write<IndexDocument>, owed: Option<Projection>)

  function JobFor(cfg: Config, s: Normalized, vector: seq<real>): Result<Job>
    requires Complete(s.record)
  {
    if s.operation.Delete? then
      match RedactedFor(cfg, s)
      case Raise(e) => Raise(e)
      case Ok(d) => Ok(Job(Write(cfg.tenant, d.chunkId, s.orderingVersion, d), None))
    else
      match DocumentFor(cfg, s, vector)
      case Raise(e) => Raise(e)
      case Ok(d) =>
        match ShowcaseMetadata(s.record)
        case Raise(e) => Raise(e)
        case Ok(stamp) =>
          Ok(Job(Write(cfg.tenant, d.chunkId, s.orderingVersion, d),
                 if stamp.None? then None else Some(Projection(s, d.documentId, stamp.value))))
  }

  // What an event means, with the embedder asked afresh.
  function Plan(cfg: Config, event: RawEvent): Result<Job> {
    match Parse(event)
    case Raise(e) => Raise(e)
    case Ok(s) => JobFor(cfg, s, cfg.embed(s.record.content.value))
  }

  // ShowcaseCdcBundle's constructor, called outside the worker's error handling.
  predicate BundleWellFormed(p: Projection) {
    && NonBlank(p.stamp.runId) && NonBlank(p.stamp.correlationId)
    && NonBlank(p.source.source) && NonBlank(p.source.recordId)
    && p.source.sourceVersion >= 0
  }

  predicate BundleValid(p: Projection, now: int) {
    BundleWellFormed(p) && p.source.occurredAt <= now
  }

  // Two upserts of a record land on the same row whatever their content, so updates leave no
  // orphan chunk; different records land on different rows.
  lemma RowsNameRecords(cfg: Config, a: RawEvent, b: RawEvent)
    requires Plan(cfg, a).Ok? && Plan(cfg, b).Ok?
    ensures
      var sa, sb := Parse(a).value, Parse(b).value;
      Row(Plan(cfg, a).value.write) == Row(Plan(cfg, b).value.write) <==>
        (sa.source == sb.source && sa.resource == sb.resource && sa.recordId == sb.recordId)
  {
    var sa, sb := Parse(a).value, Parse(b).value;
    ChunkIdHasNoColon(DocumentIdOf(sa), 0, "stable-ordinal-v1");
    ChunkIdHasNoColon(DocumentIdOf(sb), 0, "stable-ordinal-v1");
    RowIdIdentifies(cfg.tenant, ChunkIdOf(sa), cfg.tenant, ChunkIdOf(sb));
    ChunkIdIdentifies(DocumentIdOf(sa), 0, "stable-ordinal-v1", DocumentIdOf(sb), 0, "stable-ordinal-v1");
    var pa, pb := [sa.source, sa.resource, sa.recordId], [sb.source, sb.resource, sb.recordId];
    if DocumentIdOf(sa) == DocumentIdOf(sb) {
      StableIdInjective("doc", pa, pb);
      assert pa[0] == pb[0] && pa[1] == pb[1] && pa[2] == pb[2];
    }
    assert Plan(cfg, a).value.write.chunk == ChunkIdOf(sa);
    assert Plan(cfg, b).value.write.chunk == ChunkIdOf(sb);
  }
}
