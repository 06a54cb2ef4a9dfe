/** What the rows of the index and the announcements say, in the fields of the records that caused them. */
module IndexerRows {
  import opened Prelude
  import opened StableIds
  import opened CanonicalIndex
  import opened IndexerPlan
  import opened IndexerWorker
  import Saga = ShowcaseSaga
  import Ledger = ShowcaseLedger

  // The row image an event speaks about.
  function Image(event: RawEvent): Option<TableRow> {
    if event.op == Some("d") then event.before else event.after
  }

  // ------------------------------------------------------------ what one event asks for

  // A delete writes a redacted tombstone and announces nothing.
  lemma DeletesAreRedacted(cfg: Config, event: RawEvent)
    requires Plan(cfg, event).Ok? && event.op == Some("d")
    ensures
      var job := Plan(cfg, event).value;
      var d := job.write.document;
      && d.validity.isDeleted && d.validity.validTo == event.tsMs
      && d.title == "Deleted context" && d.content == "Deleted" && d.keywords == []
      && |d.contentVector| == 384 && (forall i :: 0 <= i < 384 ==> d.contentVector[i] == 0.0)
      && job.owed == None
  {
  }

  // Any other event writes its row as it is, live, with the embedding of its content.
  lemma UpsertsCarryTheRow(cfg: Config, event: RawEvent)
    requires Plan(cfg, event).Ok? && event.op != Some("d")
    ensures event.after.Some?
    ensures
      var r, d := event.after.value, Plan(cfg, event).value.write.document;
      && !d.validity.isDeleted && d.validity.validTo == None
      && Some(d.title) == r.title && Some(d.content) == r.content
      && r.sku.Some? && r.brand.Some? && r.market.Some?
      && d.keywords == [r.sku.value, r.brand.value, r.market.value]
      && d.contentVector == cfg.embed(d.content)
  {
  }

  // Either way the row is that of the record the event names, under the log position or, without
  // one, the row's own version, governed as the row says and dated by it.
  lemma EveryWriteIsAddressed(cfg: Config, event: RawEvent)
    requires Plan(cfg, event).Ok?
    ensures Image(event).Some? && event.source.Some?
    ensures
      var r, m, w := Image(event).value, event.source.value, Plan(cfg, event).value.write;
      var d := w.document;
      && w.tenant == d.tenantId == cfg.tenant && w.chunk == d.chunkId
      && Some(w.version) == (if m.lsn.Some? && m.lsn.value > 0 then m.lsn else r.sourceVersion)
      && Some(d.source.recordId) == r.sku && Some(d.source.resource) == m.table
      && Some(d.source.system) == (if m.name.Some? && m.name.value != "" then m.name else m.connector)
      && d.documentId == DocumentId(d.source.system, d.source.resource, d.source.recordId)
      && Ok(d.chunkId) == ChunkId(d.documentId, 0, "stable-ordinal-v1")
    ensures
      var r, d := Image(event).value, Plan(cfg, event).value.write.document;
      && Some(d.governance.classification) == r.classification && Some(d.governance.region) == r.market
      && Some(d.governance.allowedPurposes) == r.allowedPurposes && d.governance.allowedPurposes != []
      && d.validity.validFrom == r.updatedAt && Some(d.validity.sourceUpdatedAt) == r.updatedAt
      && Some(d.validity.indexedAt) == event.tsMs
      && r.content.Some? && d.lineage.contentHash == "sha256:" + Digest(r.content.value)
      && d.lineage.embeddingModel == cfg.model && d.trustClass == "source-derived"
      && r.sourceVersion.Some? && d.source.version == Integer(r.sourceVersion.value)
  {
  }

  // The event id a row is traced by: equal exactly for equal texts of source, table, record and
  // version, so with no colon in table and record it tells all four apart.
  lemma EventIdIdentifies(a: Normalized, b: Normalized)
    ensures EventId(a) == EventId(b) <==>
      a.source + ":" + a.resource + ":" + a.recordId + ":" + Integer(a.sourceVersion)
      == b.source + ":" + b.resource + ":" + b.recordId + ":" + Integer(b.sourceVersion)
  {
    var x := a.source + ":" + a.resource + ":" + a.recordId + ":" + Integer(a.sourceVersion);
    var y := b.source + ":" + b.resource + ":" + b.recordId + ":" + Integer(b.sourceVersion);
    if EventId(a) == EventId(b) {
      assert EventId(a)[4..] == Digest(x) && EventId(b)[4..] == Digest(y);
      DigestInjective(x, y);
    }
  }

  lemma ColonFreeEventIds(a: Normalized, b: Normalized)
    requires ':' !in a.resource && ':' !in a.recordId && ':' !in b.resource && ':' !in b.recordId
    ensures EventId(a) == EventId(b) <==>
      && a.source == b.source && a.resource == b.resource && a.recordId == b.recordId
      && a.sourceVersion == b.sourceVersion
  {
    EventIdIdentifies(a, b);
    if EventId(a) == EventId(b) {
      var p, q := a.source + ":" + a.resource + ":" + a.recordId, b.source + ":" + b.resource + ":" + b.recordId;
      IntegerHasNoColon(a.sourceVersion);
      IntegerHasNoColon(b.sourceVersion);
      LastSeparatorSplits(':', p, Integer(a.sourceVersion), q, Integer(b.sourceVersion));
      IntegerInjective(a.sourceVersion, b.sourceVersion);
      LastSeparatorSplits(':', a.source + ":" + a.resource, a.recordId, b.source + ":" + b.resource, b.recordId);
      LastSeparatorSplits(':', a.source, a.resource, b.source, b.resource);
    }
  }

  lemma IntegerHasNoColon(n: int)
    ensures ':' !in Integer(n)
  {
    DecimalReads(if n < 0 then -n else n);
  }

  lemma SignShows(n: int)
    ensures Integer(n) != "" && (n < 0 <==> Integer(n)[0] == '-')
  {
    DecimalReads(if n < 0 then -n else n);
  }

  lemma IntegerInjective(m: int, n: int)
    requires Integer(m) == Integer(n)
    ensures m == n
  {
    SignShows(m);
    SignShows(n);
    if m < 0 && n < 0 {
      assert Integer(m)[1..] == Decimal(-m) && Integer(n)[1..] == Decimal(-n);
      DecimalInjective(-m, -n);
    } else if m >= 0 && n >= 0 {
      DecimalInjective(m, n);
    }
  }

  lemma PlannedFacts(cfg: Config, event: RawEvent)
    requires Plan(cfg, event).Ok?
    ensures Image(event).Some? && event.source.Some? && Parse(event).Ok?
    ensures
      var s, d := Parse(event).value, Plan(cfg, event).value.write.document;
      && s.record == Image(event).value && Some(s.resource) == event.source.value.table
      && FactsOf(s) == Ok(d.facts) && d.domain == DomainFor(s.resource) && d.entityType == EntityTypeFor(s.resource)
      && Some(s.sourceVersion) == s.record.sourceVersion
  {
  }

  // The structured facts are those of the row, for the two tables that have them.
  lemma FactsAreTheRows(cfg: Config, event: RawEvent)
    requires Plan(cfg, event).Ok?
    ensures Image(event).Some? && event.source.Some?
    ensures
      var r, table, d := Image(event).value, event.source.value.table, Plan(cfg, event).value.write.document;
      match d.facts
      case Some(PricingFacts(sku, percent, version)) =>
        && table == Some("pricing_rules") && d.domain == "pricing" && d.entityType == "pricing_rule"
        && r.sku == Some(sku) && r.maxDiscountPercent == Some(percent) && 0 <= percent <= 100
        && r.sourceVersion == Some(version)
      case Some(FulfillmentFacts(sku, available, cutoff, address, risk, version)) =>
        && table == Some("fulfillment_rules") && d.domain == "fulfillment" && d.entityType == "fulfillment_rule"
        && r.sku == Some(sku) && r.availableToPromise == Some(available) && available >= 0
        && r.carrierCutoffOpen == Some(cutoff) && r.addressHold == Some(address) && r.riskHold == Some(risk)
        && r.sourceVersion == Some(version)
      case None =>
        && table != Some("pricing_rules") && table != Some("fulfillment_rules")
        && d.domain == "source" && d.entityType == "source_record"
  {
    PlannedFacts(cfg, event);
    var s := Parse(event).value;
    assert s.resource == "pricing_rules" ==> FactsOf(s).value == Some(PricingFactsOf(s.record, s.sourceVersion).value);
    assert s.resource == "fulfillment_rules" ==>
        FactsOf(s).value == Some(FulfillmentFactsOf(s.record, s.sourceVersion).value);
  }

  // That includes deletes: a tombstone of those two tables still carries the facts of the deleted row.
  lemma DeletedFactsRemain(cfg: Config, event: RawEvent)
    requires Plan(cfg, event).Ok? && event.op == Some("d")
    ensures event.source.Some?
    ensures Plan(cfg, event).value.write.document.facts.Some?
       <==> event.source.value.table in [Some("pricing_rules"), Some("fulfillment_rules")]
  {
    FactsAreTheRows(cfg, event);
  }

  // The two stamps of a row agree: neither is there, or both are texts that are not empty.
  predicate Stamped(r: TableRow) {
    r.showcaseRunId.Given? && r.showcaseRunId.value != ""
    && r.showcaseCorrelationId.Given? && r.showcaseCorrelationId.value != ""
  }

  lemma ParsesExactly(event: RawEvent)
    ensures Parse(event).Ok? <==>
      && event.op in [Some("c"), Some("r"), Some("u"), Some("d")]
      && Image(event).Some? && event.source.Some? && event.tsMs.Some?
      && var r, m := Image(event).value, event.source.value;
         && r.sku.Some? && r.brand.Some? && r.market.Some? && r.title.Some? && r.content.Some?
         && r.classification.Some? && r.sourceVersion.Some? && r.updatedAt.Some?
         && r.allowedPurposes.Some? && r.allowedPurposes.value != []
         && m.table.Some? && ((m.name.Some? && m.name.value != "") || m.connector.Some?)
    ensures Parse(event).Ok? ==>
      var s := Parse(event).value;
      && s.record == Image(event).value && Some(s.resource) == event.source.value.table
      && (s.operation.Delete? <==> event.op == Some("d"))
  {
  }

  lemma JobsExactly(cfg: Config, s: Normalized, vector: seq<real>)
    requires Complete(s.record)
    ensures JobFor(cfg, s, vector).Ok? <==>
      var r := s.record;
      && (s.resource == "pricing_rules" ==> r.maxDiscountPercent.Some? && 0 <= r.maxDiscountPercent.value <= 100)
      && (s.resource == "fulfillment_rules" ==>
            && r.availableToPromise.Some? && r.availableToPromise.value >= 0
            && r.carrierCutoffOpen.Some? && r.addressHold.Some? && r.riskHold.Some?)
      && (s.operation.Delete? || Stamped(r) || (r.showcaseRunId.Absent? && r.showcaseCorrelationId.Absent?))
  {
  }

  // Exactly which events have a plan; every other one is a dead letter. It must parse, carry the
  // facts of its table, and an upsert must not be half stamped.
  lemma PlansExactly(cfg: Config, event: RawEvent)
    ensures Plan(cfg, event).Ok? <==>
      && Parse(event).Ok? && Image(event).Some? && event.source.Some?
      && var r, table := Image(event).value, event.source.value.table;
         && (table == Some("pricing_rules") ==>
               r.maxDiscountPercent.Some? && 0 <= r.maxDiscountPercent.value <= 100)
         && (table == Some("fulfillment_rules") ==>
               && r.availableToPromise.Some? && r.availableToPromise.value >= 0
               && r.carrierCutoffOpen.Some? && r.addressHold.Some? && r.riskHold.Some?)
         && (event.op != Some("d") ==>
               Stamped(r) || (r.showcaseRunId.Absent? && r.showcaseCorrelationId.Absent?))
  {
    ParsesExactly(event);
    if Parse(event).Ok? {
      var s := Parse(event).value;
      JobsExactly(cfg, s, cfg.embed(s.record.content.value));
    }
  }

  // A bundle is owed exactly by a stamped row that was not deleted, under that stamp.
  lemma OwedExactly(cfg: Config, event: RawEvent)
    requires Plan(cfg, event).Ok?
    ensures Image(event).Some?
    ensures
      var r, job := Image(event).value, Plan(cfg, event).value;
      && (job.owed.Some? <==> event.op != Some("d") && Stamped(r))
      && (job.owed.Some? ==>
            var p, d := job.owed.value, job.write.document;
            && p.stamp == Stamp(r.showcaseRunId.value, r.showcaseCorrelationId.value)
            && p.documentId == d.documentId && p.source.source == d.source.system
            && p.source.recordId == d.source.recordId && Some(p.source.sourceVersion) == r.sourceVersion
            && Some(p.source.occurredAt) == event.tsMs)
  {
  }

  // ------------------------------------------------------------ what every run leaves in the index

  // Row `row` holds what the event at offset n asked for.
  ghost predicate SetBy(cfg: Config, log: Log, rows: Rows<IndexDocument>, row: string, n: nat) {
    && n < |log| && row in rows && Plan(cfg, log[n]).Ok?
    && var w := Plan(cfg, log[n]).value.write;
       row == RowId(cfg.tenant, w.chunk) && rows[row] == CanonicalIndex.Entry(w.version, w.document)
  }

  // The index of a run is the crash-free index of some prefix of the log.
  lemma IndexOfRun(cfg: Config, log: Log, actions: seq<Action>) returns (upTo: nat)
    ensures var w := Run(cfg, log, actions);
      w.checkpoint <= upTo <= w.checkpoint + 1 && upTo <= |log| && w.rows == RowsAfter(PlansOf(cfg, log), upTo)
  {
    InvHolds(cfg, log, actions);
    upTo := IndexOfState(PlansOf(cfg, log), Run(cfg, log, actions));
  }

  lemma IndexOfState(plans: Plans, w: WorkerState) returns (upTo: nat)
    requires Inv(plans, w)
    ensures w.checkpoint <= upTo <= w.checkpoint + 1 && upTo <= |plans| && w.rows == RowsAfter(plans, upTo)
  {
    InvSaysSo(plans, w);
    upTo := if w.rows == RowsAfter(plans, w.checkpoint) then w.checkpoint else w.checkpoint + 1;
  }

  // Below the checkpoint, what is no dead letter was accepted.
  lemma AcceptedUnlessDead(cfg: Config, log: Log, actions: seq<Action>, n: nat)
    requires n < Run(cfg, log, actions).checkpoint && n !in Run(cfg, log, actions).letters
    ensures n < |log| && !Dead(PlansOf(cfg, log), n)
  {
    CrashesAreInvisible(cfg, log, actions);
  }

  lemma RowsAreSet(cfg: Config, log: Log, actions: seq<Action>, row: string) returns (n: nat)
    requires row in Run(cfg, log, actions).rows
    ensures n <= Run(cfg, log, actions).checkpoint && SetBy(cfg, log, Run(cfg, log, actions).rows, row, n)
    ensures cfg.tenant != "" && Run(cfg, log, actions).rows[row].version >= 1
  {
    var plans := PlansOf(cfg, log);
    var upTo := IndexOfRun(cfg, log, actions);
    EveryRowWasWritten(plans, upTo, row);
    var m :| RowSetBy(plans, upTo, row, m);
    n := m;
    EveryWriteIsAddressed(cfg, log[n]);
    assert plans[n] == Plan(cfg, log[n]) && Accepted(RowsAfter(plans, n), plans[n].value.write);
  }

  // Over every run, crashes included, each row says what one read record says: redacted and deleted
  // if that is a delete, and otherwise live with the record's own text.
  lemma RowsSayTheirRecord(cfg: Config, log: Log, actions: seq<Action>, row: string) returns (n: nat)
    requires row in Run(cfg, log, actions).rows
    ensures n < |log| && n <= Run(cfg, log, actions).checkpoint && Image(log[n]).Some?
    ensures
      var entry, r := Run(cfg, log, actions).rows[row], Image(log[n]).value;
      var d := entry.source;
      && entry.version >= 1 && Some(d.source.recordId) == r.sku
      && (d.validity.isDeleted <==> log[n].op == Some("d"))
      && (log[n].op == Some("d") ==>
            && d.title == "Deleted context" && d.content == "Deleted" && d.keywords == []
            && d.validity.validTo == log[n].tsMs
            && forall i :: 0 <= i < |d.contentVector| ==> d.contentVector[i] == 0.0)
      && (log[n].op != Some("d") ==>
            && Some(d.title) == r.title && Some(d.content) == r.content && d.contentVector == cfg.embed(d.content)
            && d.validity.validTo == None)
  {
    n := RowsAreSet(cfg, log, actions, row);
    EveryWriteIsAddressed(cfg, log[n]);
    if log[n].op == Some("d") {
      DeletesAreRedacted(cfg, log[n]);
    } else {
      UpsertsCarryTheRow(cfg, log[n]);
    }
  }

  // The first plan does not write the row of the second at a higher version.
  predicate NotAbove(a: Result<Job>, b: Result<Job>) {
    a.Ok? && b.Ok? && Row(a.value.write) == Row(b.value.write) ==> a.value.write.version <= b.value.write.version
  }

  // A delete that was accepted and is the highest version of its row keeps the row redacted through
  // every run, whatever older changes are replayed around it.
  lemma DeletedRowsStayRedacted(cfg: Config, log: Log, actions: seq<Action>, n: nat)
    requires n < Run(cfg, log, actions).checkpoint && n < |log|
    requires log[n].op == Some("d") && n !in Run(cfg, log, actions).letters
    requires Plan(cfg, log[n]).Ok?
    requires forall m :: 0 <= m < |log| ==> NotAbove(Plan(cfg, log[m]), Plan(cfg, log[n]))
    ensures
      var row, rows := Row(Plan(cfg, log[n]).value.write), Run(cfg, log, actions).rows;
      row in rows && rows[row].source.validity.isDeleted && rows[row].source.content == "Deleted"
  {
    AcceptedUnlessDead(cfg, log, actions, n);
    var upTo := IndexOfRun(cfg, log, actions);
    HighestPlanned(cfg, log, n);
    HighestIsShown(PlansOf(cfg, log), n, upTo);
    DeletesAreRedacted(cfg, log[n]);
  }

  lemma HighestPlanned(cfg: Config, log: Log, n: nat)
    requires n < |log| && forall m :: 0 <= m < |log| ==> NotAbove(Plan(cfg, log[m]), Plan(cfg, log[n]))
    ensures var plans := PlansOf(cfg, log); forall m :: 0 <= m < |plans| ==> NotAbove(plans[m], plans[n])
  {
    var plans := PlansOf(cfg, log);
    forall m | 0 <= m < |plans| ensures NotAbove(plans[m], plans[n]) {
      assert plans[m] == Plan(cfg, log[m]) && plans[n] == Plan(cfg, log[n]);
    }
  }

  // Whatever else is in the log, an accepted write of the highest version is what its row shows.
  lemma HighestIsShown(plans: Plans, n: nat, upTo: nat)
    requires n < upTo <= |plans| && !Dead(plans, n)
    requires forall m :: 0 <= m < |plans| ==> NotAbove(plans[m], plans[n])
    ensures
      var w, rows := plans[n].value.write, RowsAfter(plans, upTo);
      Row(w) in rows && rows[Row(w)].source == w.document
  {
    var row := Row(plans[n].value.write);
    AcceptedStaysCovered(plans, n, upTo);
    EveryRowWasWritten(plans, upTo, row);
    var m :| RowSetBy(plans, upTo, row, m);
    assert plans[m].Ok? && NotAbove(plans[m], plans[n]);
  }

  // ------------------------------------------------------------ what every run announces

  // The bundle the showcase is sent.
  function BundleOf(p: Projection, appliedAt: int): Saga.Bundle
    requires p.source.sourceVersion >= 0
  {
    Saga.Bundle(p.stamp.runId, p.stamp.correlationId,
           Ledger.SourceVersion(p.source.source, p.source.recordId, p.source.sourceVersion),
           EventId(p.source), p.documentId, p.source.occurredAt, appliedAt)
  }

  // Over every run an announcement stands for a stamped row that was not deleted, read at its offset,
  // and its bundle is one that the receiving side constructs.
  lemma AnnouncementsCarryTheirRow(cfg: Config, log: Log, actions: seq<Action>, i: nat)
    requires i < |Run(cfg, log, actions).announcements|
    ensures
      var a := Run(cfg, log, actions).announcements[i];
      var p := a.projection;
      && a.offset < |log| && a.offset <= Run(cfg, log, actions).checkpoint
      && log[a.offset].op != Some("d") && log[a.offset].after.Some?
      && var r := log[a.offset].after.value;
         && r.showcaseRunId == Given(p.stamp.runId) && r.showcaseCorrelationId == Given(p.stamp.correlationId)
         && r.sku == Some(p.source.recordId) && r.sourceVersion == Some(p.source.sourceVersion)
         && log[a.offset].tsMs == Some(p.source.occurredAt)
         && p.source.sourceVersion >= 0 && Saga.ValidBundle(BundleOf(p, a.appliedAt))
         && a.offset !in Run(cfg, log, actions).letters
  {
    InvHolds(cfg, log, actions);
    var plans, w := PlansOf(cfg, log), Run(cfg, log, actions);
    var a := w.announcements[i];
    assert Owes(plans, a.offset) && plans[a.offset] == Plan(cfg, log[a.offset]);
    OwedExactly(cfg, log[a.offset]);
    EveryWriteIsAddressed(cfg, log[a.offset]);
    assert a.projection.documentId[0] == 'd';
    BundlesAreValidExactly(a.projection, a.appliedAt);
  }

  // What stops a bundle is exactly what its constructor refuses.
  lemma BundlesAreValidExactly(p: Projection, appliedAt: int)
    requires NonBlank(p.documentId)
    ensures BundleValid(p, appliedAt) <==> p.source.sourceVersion >= 0 && Saga.ValidBundle(BundleOf(p, appliedAt))
  {
    assert EventId(p.source)[0] == 'e';
  }
}
