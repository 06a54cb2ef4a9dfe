/** The event-table store and the external-version index move together on every coherent delivery. */
module StoreRefinement {
  import opened Prelude
  import opened Domain
  import opened StableIds
  import opened ContextStore
  import opened Convergence
  import opened CanonicalIndex

  // The redacted row a delete writes to the index.
  function Redacted(e: ChangeEvent, chunk: string): ContextDocument {
    ContextDocument(
      "", chunk, e.tenantId, "", "", "Deleted context", "Deleted", [], [],
      SourceRef(e.source, "", e.partitionKey, "", Decimal(e.sourceVersion)),
      Validity(e.occurredAt, e.occurredAt, None, Some(e.occurredAt), true),
      Governance("", [], [], "", ""), Lineage(e.eventId, "", "", ""), Untrusted)
  }

  function WriteFor(change: Change, chunkOf: SourceKey -> string): Write<ContextDocument> {
    var e := change.event;
    var chunk := chunkOf(KeyOf(e));
    Write(e.tenantId, chunk, e.sourceVersion,
          if change.document.Some? then change.document.value else Redacted(e, chunk))
  }

  function IndexAfter(changes: seq<Change>, chunkOf: SourceKey -> string): Rows<ContextDocument> {
    if changes == [] then map[]
    else Written(IndexAfter(changes[..|changes| - 1], chunkOf), WriteFor(changes[|changes| - 1], chunkOf))
  }

  ghost predicate MintedIds(chunkOf: SourceKey -> string) {
    forall k :: chunkOf(k) != "" && ':' !in chunkOf(k)
  }

  // Chunk ids as the service mints them, and the tenants every change event carries.
  ghost predicate Addressed(changes: seq<Change>, chunkOf: SourceKey -> string) {
    && MintedIds(chunkOf)
    && (forall i :: 0 <= i < |changes| ==> changes[i].event.tenantId != "")
  }

  function RowOf(k: SourceKey, chunkOf: SourceKey -> string): string {
    RowId(k.tenant, chunkOf(k))
  }

  // The live document each side shows for a record, if any.
  function StoreLive(s: StoreState, k: SourceKey, chunkOf: SourceKey -> string): Option<ContextDocument> {
    var row := DocumentKey(k.tenant, chunkOf(k));
    if row in s.documents && !s.documents[row].validity.isDeleted then Some(s.documents[row]) else None
  }

  function IndexLive(rows: Rows<ContextDocument>, k: SourceKey, chunkOf: SourceKey -> string): Option<ContextDocument> {
    var row := RowOf(k, chunkOf);
    if row in rows && !rows[row].source.validity.isDeleted then Some(rows[row].source) else None
  }

  // The index has the record's row as soon as its fence is at least 1 (it takes no version 0), and
  // then both hold the same fence and show the same live document.
  predicate Aligned(s: StoreState, rows: Rows<ContextDocument>, chunkOf: SourceKey -> string, k: SourceKey) {
    var row := RowOf(k, chunkOf);
    && (row in rows <==> k in s.revisions && s.revisions[k].version >= 1)
    && (row in rows ==>
          rows[row].version == s.revisions[k].version && StoreLive(s, k, chunkOf) == IndexLive(rows, k, chunkOf))
  }

  ghost predicate Coupled(s: StoreState, rows: Rows<ContextDocument>, chunkOf: SourceKey -> string) {
    forall k :: Aligned(s, rows, chunkOf, k)
  }

  // The row is at or above the version of every delivered change that carries one the index takes;
  // at equal version it already is the one being written.
  predicate RowSettled(rows: Rows<ContextDocument>, change: Change, chunkOf: SourceKey -> string) {
    var w := WriteFor(change, chunkOf);
    w.version >= 1 ==>
      && Row(w) in rows
      && w.version <= rows[Row(w)].version
      && (w.version == rows[Row(w)].version ==> rows[Row(w)].source == w.document)
  }

  lemma RowsSeparateRecords(chunkOf: SourceKey -> string, k1: SourceKey, k2: SourceKey)
    requires NamesRecords(chunkOf) && ':' !in chunkOf(k1) && ':' !in chunkOf(k2)
    ensures RowOf(k1, chunkOf) == RowOf(k2, chunkOf) <==> k1 == k2
  {
    RowIdIdentifies(k1.tenant, chunkOf(k1), k2.tenant, chunkOf(k2));
  }

  // The rows a record's own live document can come from carry that record.
  ghost predicate RowsOwned(s: StoreState, chunkOf: SourceKey -> string) {
    forall row :: row in s.documents ==>
      row.chunk == chunkOf(RecordOf(s.documents[row])) && row.tenant == RecordOf(s.documents[row]).tenant
  }

  lemma InvOwnsRows(changes: seq<Change>, chunkOf: SourceKey -> string, s: StoreState)
    requires Inv(changes, s) && forall i :: 0 <= i < |changes| ==> WellFormed(changes[i], chunkOf)
    ensures RowsOwned(s, chunkOf)
  {
    forall row | row in s.documents
      ensures row.chunk == chunkOf(RecordOf(s.documents[row])) && row.tenant == RecordOf(s.documents[row]).tenant
    {
      var i :| RowFrom(changes, s, row, i);
      assert WellFormed(changes[i], chunkOf);
    }
  }

  lemma OtherRecordKeepsLive(
    chunkOf: SourceKey -> string, s: StoreState, change: Change, k: SourceKey)
    requires NamesRecords(chunkOf) && WellFormed(change, chunkOf) && RowsOwned(s, chunkOf)
    requires Advances(s, change) && k != KeyOf(change.event)
    ensures StoreLive(AfterChange(s, change), k, chunkOf) == StoreLive(s, k, chunkOf)
  {
    var row, changed := DocumentKey(k.tenant, chunkOf(k)), KeyOf(change.event);
    assert k.tenant != changed.tenant || chunkOf(k) != chunkOf(changed);
    if row in AfterChange(s, change).documents {
      RowAfter(s, change, row);
    }
  }

  lemma ChangedRecordLive(chunkOf: SourceKey -> string, s: StoreState, change: Change)
    requires NamesRecords(chunkOf) && WellFormed(change, chunkOf) && RowsOwned(s, chunkOf) && Advances(s, change)
    ensures StoreLive(AfterChange(s, change), KeyOf(change.event), chunkOf)
         == if change.document.Some? && !change.document.value.validity.isDeleted then change.document else None
  {
    var k := KeyOf(change.event);
    var row := DocumentKey(k.tenant, chunkOf(k));
    if row in AfterChange(s, change).documents {
      RowAfter(s, change, row);
      if row in s.documents {
        var owner := RecordOf(s.documents[row]);
        assert owner.tenant == k.tenant && chunkOf(owner) == chunkOf(k);
        assert owner == k;
      }
    }
  }

  lemma AlignedStep(
    chunkOf: SourceKey -> string, s: StoreState, change: Change, rows: Rows<ContextDocument>, k: SourceKey)
    requires NamesRecords(chunkOf) && WellFormed(change, chunkOf) && RowsOwned(s, chunkOf)
    requires MintedIds(chunkOf) && change.event.tenantId != ""
    requires Aligned(s, rows, chunkOf, k) && Aligned(s, rows, chunkOf, KeyOf(change.event))
    ensures Aligned(Next(s, change), Written(rows, WriteFor(change, chunkOf)), chunkOf, k)
  {
    var w := WriteFor(change, chunkOf);
    var changed := KeyOf(change.event);
    RowsSeparateRecords(chunkOf, k, changed);
    RetryIsIdempotent(rows, w);
    assert Row(w) == RowOf(changed, chunkOf);
    assert Advances(s, change) && w.version >= 1 <==> Identified(w) && Newer(rows, w);
    if Advances(s, change) {
      assert Next(s, change) == AfterChange(s, change);
      if k == changed {
        ChangedRecordLive(chunkOf, s, change);
      } else {
        OtherRecordKeepsLive(chunkOf, s, change, k);
      }
    }
  }

  // The row was last written at the version of changes[i].
  ghost predicate RowAtVersionOf(
    changes: seq<Change>, rows: Rows<ContextDocument>, chunkOf: SourceKey -> string, row: string, i: int)
  {
    && 0 <= i < |changes| && row in rows
    && row == RowOf(KeyOf(changes[i].event), chunkOf)
    && rows[row].version == changes[i].event.sourceVersion >= 1
  }

  ghost predicate Settled(changes: seq<Change>, rows: Rows<ContextDocument>, chunkOf: SourceKey -> string) {
    && (forall i :: 0 <= i < |changes| ==> RowSettled(rows, changes[i], chunkOf))
    && (forall row :: row in rows ==> exists i :: RowAtVersionOf(changes, rows, chunkOf, row, i))
  }

  lemma OldSettled(chunkOf: SourceKey -> string, change: Change, rows: Rows<ContextDocument>, earlier: Change)
    requires NamesRecords(chunkOf) && Compatible(earlier, change) && RowSettled(rows, earlier, chunkOf)
    requires ':' !in chunkOf(KeyOf(earlier.event)) && ':' !in chunkOf(KeyOf(change.event))
    ensures RowSettled(Written(rows, WriteFor(change, chunkOf)), earlier, chunkOf)
  {
    RowsSeparateRecords(chunkOf, KeyOf(earlier.event), KeyOf(change.event));
  }

  lemma NewSettled(
    changes: seq<Change>, chunkOf: SourceKey -> string, change: Change, rows: Rows<ContextDocument>)
    requires Follows(changes, chunkOf, change) && Settled(changes, rows, chunkOf)
    requires MintedIds(chunkOf) && change.event.tenantId != ""
    ensures RowSettled(Written(rows, WriteFor(change, chunkOf)), change, chunkOf)
  {
    var w := WriteFor(change, chunkOf);
    if !Newer(rows, w) {
      var j :| RowAtVersionOf(changes, rows, chunkOf, Row(w), j);
      RowsSeparateRecords(chunkOf, KeyOf(changes[j].event), KeyOf(change.event));
      assert RowSettled(rows, changes[j], chunkOf) && Compatible(changes[j], change);
    }
  }

  lemma SettledStep(
    changes: seq<Change>, chunkOf: SourceKey -> string, change: Change, rows: Rows<ContextDocument>)
    requires Follows(changes, chunkOf, change) && Settled(changes, rows, chunkOf)
    requires MintedIds(chunkOf) && change.event.tenantId != ""
    ensures Settled(changes + [change], Written(rows, WriteFor(change, chunkOf)), chunkOf)
  {
    var w := WriteFor(change, chunkOf);
    var all, rows' := changes + [change], Written(rows, w);
    NewSettled(changes, chunkOf, change, rows);
    forall i | 0 <= i < |changes| ensures RowSettled(rows', changes[i], chunkOf) {
      OldSettled(chunkOf, change, rows, changes[i]);
    }
    forall row | row in rows' ensures exists i :: RowAtVersionOf(all, rows', chunkOf, row, i) {
      if row in rows && rows'[row].version == rows[row].version {
        var i :| RowAtVersionOf(changes, rows, chunkOf, row, i);
        assert all[i] == changes[i];
        assert RowAtVersionOf(all, rows', chunkOf, row, i);
      } else {
        assert RowAtVersionOf(all, rows', chunkOf, row, |changes|);
      }
    }
  }

  lemma IndexSnoc(changes: seq<Change>, chunkOf: SourceKey -> string, n: nat)
    requires n < |changes|
    ensures IndexAfter(changes[..n + 1], chunkOf)
         == Written(IndexAfter(changes[..n], chunkOf), WriteFor(changes[n], chunkOf))
  {
    assert changes[..n + 1][..n] == changes[..n];
  }

  lemma CoupledStep(before: seq<Change>, chunkOf: SourceKey -> string, s: StoreState, change: Change,
                    rows: Rows<ContextDocument>)
    requires Follows(before, chunkOf, change) && Inv(before, s) && Coupled(s, rows, chunkOf)
    requires MintedIds(chunkOf) && change.event.tenantId != ""
    ensures Coupled(Next(s, change), Written(rows, WriteFor(change, chunkOf)), chunkOf)
  {
    InvOwnsRows(before, chunkOf, s);
    forall k ensures Aligned(Next(s, change), Written(rows, WriteFor(change, chunkOf)), chunkOf, k) {
      assert Aligned(s, rows, chunkOf, k) && Aligned(s, rows, chunkOf, KeyOf(change.event));
      AlignedStep(chunkOf, s, change, rows, k);
    }
  }

  lemma RefinesNext(changes: seq<Change>, chunkOf: SourceKey -> string, states: seq<StoreState>, n: nat)
    requires Coherent(changes, chunkOf) && Addressed(changes, chunkOf) && Trace(changes, states) && n < |changes|
    requires Coupled(states[n], IndexAfter(changes[..n], chunkOf), chunkOf)
    ensures Coupled(states[n + 1], IndexAfter(changes[..n + 1], chunkOf), chunkOf)
  {
    OneStep(changes, chunkOf, states, n);
    IndexSnoc(changes, chunkOf, n);
    CoupledStep(changes[..n], chunkOf, states[n], changes[n], IndexAfter(changes[..n], chunkOf));
  }

  lemma {:induction false} Refines(
    changes: seq<Change>, chunkOf: SourceKey -> string, states: seq<StoreState>, n: nat)
    requires Coherent(changes, chunkOf) && Addressed(changes, chunkOf) && Trace(changes, states) && n <= |changes|
    ensures Coupled(states[n], IndexAfter(changes[..n], chunkOf), chunkOf)
  {
    if n > 0 {
      Refines(changes, chunkOf, states, n - 1);
      RefinesNext(changes, chunkOf, states, n - 1);
    }
  }

  // Refinement: at every step of every coherent delivery the store changes state exactly on the
  // changes strictly above the fence, and the index on exactly those of them above version 0.
  lemma StepForStep(
    changes: seq<Change>, chunkOf: SourceKey -> string, states: seq<StoreState>, n: nat)
    requires Coherent(changes, chunkOf) && Addressed(changes, chunkOf) && Trace(changes, states) && n < |changes|
    ensures states[n + 1] != states[n] <==> Advances(states[n], changes[n])
    ensures IndexAfter(changes[..n + 1], chunkOf) != IndexAfter(changes[..n], chunkOf)
       <==> Advances(states[n], changes[n]) && changes[n].event.sourceVersion >= 1
  {
    var change := changes[n];
    Refines(changes, chunkOf, states, n);
    OneStep(changes, chunkOf, states, n);
    IndexSnoc(changes, chunkOf, n);
    var rows, w := IndexAfter(changes[..n], chunkOf), WriteFor(change, chunkOf);
    RetryIsIdempotent(rows, w);
    assert Aligned(states[n], rows, chunkOf, KeyOf(change.event));
    assert Row(w) == RowOf(KeyOf(change.event), chunkOf);
    if Advances(states[n], change) {
      assert KeyOf(change.event) in Next(states[n], change).revisions;
    }
  }

  // The fence is one the index cannot hold, under a live document.
  predicate LiveAtZero(s: StoreState, k: SourceKey, chunkOf: SourceKey -> string) {
    k in s.revisions && s.revisions[k].version == 0 && StoreLive(s, k, chunkOf).Some?
  }

  // After every delivery the two show the same live document of a record, except exactly while its
  // highest version is a live 0.
  lemma VersionZeroDiverges(
    changes: seq<Change>, chunkOf: SourceKey -> string, states: seq<StoreState>, n: nat, k: SourceKey)
    requires Coherent(changes, chunkOf) && Addressed(changes, chunkOf) && Trace(changes, states) && n <= |changes|
    ensures StoreLive(states[n], k, chunkOf) == IndexLive(IndexAfter(changes[..n], chunkOf), k, chunkOf)
       <==> !LiveAtZero(states[n], k, chunkOf)
  {
    Refines(changes, chunkOf, states, n);
    assert Aligned(states[n], IndexAfter(changes[..n], chunkOf), chunkOf, k);
    if StoreLive(states[n], k, chunkOf).Some? {
      InvHolds(changes, chunkOf, states, n);
      forall i | 0 <= i < n ensures WellFormed(changes[..n][i], chunkOf) {
        assert CoherentAt(changes, chunkOf, i, i);
      }
      LiveIsFenced(changes[..n], chunkOf, states[n], k);
    }
  }

  // A record with a row has a fence.
  lemma LiveIsFenced(before: seq<Change>, chunkOf: SourceKey -> string, s: StoreState, k: SourceKey)
    requires NamesRecords(chunkOf) && forall i :: 0 <= i < |before| ==> WellFormed(before[i], chunkOf)
    requires Inv(before, s) && StoreLive(s, k, chunkOf).Some?
    ensures k in s.revisions
  {
    var i :| RowFrom(before, s, DocumentKey(k.tenant, chunkOf(k)), i);
    RowNamesRecord(chunkOf, before[i], k);
    assert BehindFence(s, before[i]);
  }

  lemma RowNamesRecord(chunkOf: SourceKey -> string, change: Change, k: SourceKey)
    requires NamesRecords(chunkOf) && WellFormed(change, chunkOf) && change.document.Some?
    requires DocumentKeyOf(change.document.value) == DocumentKey(k.tenant, chunkOf(k))
    ensures KeyOf(change.event) == k
  {
  }

  // One live upsert at version 0 of some record.
  function ZeroUpsert(chunkOf: SourceKey -> string): Change {
    var k := SourceKey("t", "s", "r");
    var document := ContextDocument(
      "d", chunkOf(k), k.tenant, "domain", "entity", "title", "content", [], [],
      SourceRef(k.source, "resource", k.record, "uri", Decimal(0)), Validity(0, 0, None, None, false),
      Governance("public", [], [], "eu", "R1"), Lineage("e", "p", "m", "h"), Untrusted);
    Change(ChangeEvent("e", k.tenant, k.source, k.record, Upsert, 0, 0), Some(document))
  }

  // Such deliveries exist, whatever names the rows: after this one the store shows a document and
  // the index shows none.
  lemma VersionZeroDivergence(chunkOf: SourceKey -> string) returns (states: seq<StoreState>)
    requires NamesRecords(chunkOf) && MintedIds(chunkOf)
    ensures
      var changes, k := [ZeroUpsert(chunkOf)], SourceKey("t", "s", "r");
      && Coherent(changes, chunkOf) && Addressed(changes, chunkOf) && Trace(changes, states)
      && LiveAtZero(states[1], k, chunkOf)
      && IndexLive(IndexAfter(changes, chunkOf), k, chunkOf) == None
  {
    var u, k := ZeroUpsert(chunkOf), SourceKey("t", "s", "r");
    var changes, d := [u], u.document.value;
    var after := WithRevision(EMPTY.(documents := map[DocumentKeyOf(d) := d]), u);
    states := [EMPTY, after];
    assert Classify(EMPTY, u) == None;
    assert IngestStep(EMPTY, u, after, Ok(Applied));
    assert Ingested(states[0], changes[0], states[1]);
    assert Stepped(changes, states, 0);
    assert CoherentAt(changes, chunkOf, 0, 0);
    VersionZeroDiverges(changes, chunkOf, states, 1, k);
    assert changes[..1] == changes && changes[..0] == [];
    assert IndexAfter(changes, chunkOf) == Written(map[], WriteFor(u, chunkOf)) == map[];
  }

  // So with no version 0 about, they agree on every record after every delivery.
  lemma LiveViewsAgree(
    changes: seq<Change>, chunkOf: SourceKey -> string, states: seq<StoreState>, n: nat, k: SourceKey)
    requires Coherent(changes, chunkOf) && Addressed(changes, chunkOf) && Trace(changes, states) && n <= |changes|
    requires forall i :: 0 <= i < n ==> changes[i].event.sourceVersion >= 1
    ensures StoreLive(states[n], k, chunkOf) == IndexLive(IndexAfter(changes[..n], chunkOf), k, chunkOf)
  {
    VersionZeroDiverges(changes, chunkOf, states, n, k);
    InvHolds(changes, chunkOf, states, n);
    if k in states[n].revisions {
      var i :| FenceFrom(changes[..n], states[n], k, i);
      assert changes[i].event.sourceVersion >= 1;
    }
  }

  // ---------------------------------------------------------------- the ids the service mints

  function ServiceChunkOf(resourceOf: SourceKey -> string): SourceKey -> string {
    (k: SourceKey) => ChunkId(DocumentId(k.source, resourceOf(k), k.record), 0, "stable-ordinal-v1").value
  }

  // One chunk per record at a fixed position: such ids do name records and suit the index,
  // whichever resource a record is read from.
  lemma ServiceIdsNameRecords(resourceOf: SourceKey -> string)
    ensures NamesRecords(ServiceChunkOf(resourceOf)) && MintedIds(ServiceChunkOf(resourceOf))
  {
    var chunkOf := ServiceChunkOf(resourceOf);
    forall a: SourceKey, b: SourceKey | a.tenant == b.tenant && chunkOf(a) == chunkOf(b) ensures a == b {
      var d, e := DocumentId(a.source, resourceOf(a), a.record), DocumentId(b.source, resourceOf(b), b.record);
      ChunkIdIdentifies(d, 0, "stable-ordinal-v1", e, 0, "stable-ordinal-v1");
      var p, q := [a.source, resourceOf(a), a.record], [b.source, resourceOf(b), b.record];
      StableIdInjective("doc", p, q);
      assert p[0] == q[0] && p[2] == q[2];
    }
    forall k ensures chunkOf(k) != "" && ':' !in chunkOf(k) {
      ChunkIdHasNoColon(DocumentId(k.source, resourceOf(k), k.record), 0, "stable-ordinal-v1");
      assert |chunkOf(k)| >= |"chk" + "_"|;
    }
  }

  lemma SettledNext(changes: seq<Change>, chunkOf: SourceKey -> string, n: nat, rows: Rows<ContextDocument>)
    requires n < |changes| && Follows(changes[..n], chunkOf, changes[n]) && Settled(changes[..n], rows, chunkOf)
    requires MintedIds(chunkOf) && changes[n].event.tenantId != ""
    ensures Settled(changes[..n + 1], Written(rows, WriteFor(changes[n], chunkOf)), chunkOf)
  {
    SettledStep(changes[..n], chunkOf, changes[n], rows);
    PrefixSnoc(changes, n);
  }

  lemma SettledAdvance(changes: seq<Change>, chunkOf: SourceKey -> string, n: nat)
    requires Coherent(changes, chunkOf) && Addressed(changes, chunkOf) && n < |changes|
    requires Settled(changes[..n], IndexAfter(changes[..n], chunkOf), chunkOf)
    ensures Settled(changes[..n + 1], IndexAfter(changes[..n + 1], chunkOf), chunkOf)
  {
    PrefixFollows(changes, chunkOf, n);
    SettledNext(changes, chunkOf, n, IndexAfter(changes[..n], chunkOf));
    IndexSnoc(changes, chunkOf, n);
  }

  lemma {:induction false} AllSettled(changes: seq<Change>, chunkOf: SourceKey -> string, n: nat)
    requires Coherent(changes, chunkOf) && Addressed(changes, chunkOf) && n <= |changes|
    ensures Settled(changes[..n], IndexAfter(changes[..n], chunkOf), chunkOf)
  {
    if n > 0 {
      AllSettled(changes, chunkOf, n - 1);
      SettledAdvance(changes, chunkOf, n - 1);
    }
  }

  // What is reported differs: a repeat of the change at the fence is a Duplicate to the store and,
  // above version 0, an acknowledged write to the index; a late change is a quiet disposition of the
  // store and a ValueError (so a dead letter) at the index.
  lemma ReportsDiffer(
    changes: seq<Change>, chunkOf: SourceKey -> string, states: seq<StoreState>, n: nat, r: Result<Disposition>)
    requires Coherent(changes, chunkOf) && Addressed(changes, chunkOf) && Trace(changes, states) && n < |changes|
    requires IngestStep(states[n], changes[n], states[n + 1], r)
    requires !Advances(states[n], changes[n])
    ensures
      var fence := states[n].revisions[KeyOf(changes[n].event)].version;
      var acknowledged := Accepted(IndexAfter(changes[..n], chunkOf), WriteFor(changes[n], chunkOf));
      && (acknowledged <==> changes[n].event.sourceVersion == fence && fence >= 1)
      && (changes[n].event.sourceVersion == fence ==> r == Ok(Duplicate))
      && (changes[n].event.sourceVersion < fence ==> r == Ok(Duplicate) || r == Ok(OutOfOrder))
  {
    var before, change, s := changes[..n], changes[n], states[n];
    var rows := IndexAfter(before, chunkOf);
    Refines(changes, chunkOf, states, n);
    assert Aligned(s, rows, chunkOf, KeyOf(change.event));
    OneStep(changes, chunkOf, states, n);
    AllSettled(changes, chunkOf, n);
    AllFencesKnown(changes, chunkOf, states, n);
    ReportsBelowFence(before, chunkOf, s, change, states[n + 1], rows, r);
  }

  lemma ReportsBelowFence(
    before: seq<Change>, chunkOf: SourceKey -> string, s: StoreState, change: Change, s': StoreState,
    rows: Rows<ContextDocument>, r: Result<Disposition>)
    requires Inv(before, s) && Follows(before, chunkOf, change) && !Advances(s, change) && FencesKnown(before, s)
    requires Settled(before, rows, chunkOf) && Aligned(s, rows, chunkOf, KeyOf(change.event))
    requires MintedIds(chunkOf) && change.event.tenantId != "" && IngestStep(s, change, s', r)
    ensures
      var fence := s.revisions[KeyOf(change.event)].version;
      var acknowledged := Accepted(rows, WriteFor(change, chunkOf));
      && (acknowledged <==> change.event.sourceVersion == fence && fence >= 1)
      && (change.event.sourceVersion == fence ==> r == Ok(Duplicate))
      && (change.event.sourceVersion < fence ==> r == Ok(Duplicate) || r == Ok(OutOfOrder))
  {
    var j := IndexBelowFence(before, chunkOf, s, change, rows);
    AnswerBelowFence(before, s, change, s', r);
  }

  // The index acknowledges below-fence writes exactly at the fence, where the change is a repeat.
  lemma IndexBelowFence(
    before: seq<Change>, chunkOf: SourceKey -> string, s: StoreState, change: Change, rows: Rows<ContextDocument>)
    returns (j: nat)
    requires Inv(before, s) && Follows(before, chunkOf, change) && !Advances(s, change)
    requires Settled(before, rows, chunkOf) && Aligned(s, rows, chunkOf, KeyOf(change.event))
    requires MintedIds(chunkOf) && change.event.tenantId != ""
    ensures var fence := s.revisions[KeyOf(change.event)].version;
      && (Accepted(rows, WriteFor(change, chunkOf)) <==> change.event.sourceVersion == fence && fence >= 1)
      && FenceFrom(before, s, KeyOf(change.event), j)
      && (change.event.sourceVersion == fence ==> before[j] == change)
  {
    var k := KeyOf(change.event);
    var i :| FenceFrom(before, s, k, i);
    j := i;
    assert Compatible(before[j], change);
    AcceptedAtFence(chunkOf, change, before[j], rows, s.revisions[k].version);
  }

  // The index acknowledges a write that is not above the row's version exactly when it repeats
  // the change that set that version.
  lemma AcceptedAtFence(chunkOf: SourceKey -> string, change: Change, setter: Change, rows: Rows<ContextDocument>,
                        fence: nat)
    requires RowSettled(rows, setter, chunkOf) && KeyOf(setter.event) == KeyOf(change.event)
    requires setter.event.sourceVersion == fence
    requires fence >= 1 ==> rows[Row(WriteFor(setter, chunkOf))].version == fence
    requires change.event.sourceVersion <= fence && MintedIds(chunkOf) && change.event.tenantId != ""
    requires change.event.sourceVersion == fence ==> setter == change
    ensures Accepted(rows, WriteFor(change, chunkOf)) <==> change.event.sourceVersion == fence && fence >= 1
  {
    assert Row(WriteFor(change, chunkOf)) == Row(WriteFor(setter, chunkOf));
  }

  lemma AnswerBelowFence(
    before: seq<Change>, s: StoreState, change: Change, s': StoreState, r: Result<Disposition>)
    requires Inv(before, s) && Paired(change) && !Advances(s, change)
    requires forall i :: 0 <= i < |before| ==> Compatible(before[i], change)
    requires IngestStep(s, change, s', r)
    ensures change.event.eventId in s.events ==> r == Ok(Duplicate)
    ensures change.event.sourceVersion < s.revisions[KeyOf(change.event)].version ==>
              r == Ok(Duplicate) || r == Ok(OutOfOrder)
  {
    if change.event.eventId in s.events {
      var i :| EventFrom(before, s, change.event.eventId, i);
      assert Compatible(before[i], change);
    }
  }

  // The event at a record's fence is in the event table.
  ghost predicate FencesKnown(changes: seq<Change>, s: StoreState) {
    forall i :: 0 <= i < |changes| && FenceFrom(changes, s, KeyOf(changes[i].event), i) ==>
      changes[i].event.eventId in s.events
  }

  lemma FencesKnownStep(before: seq<Change>, chunkOf: SourceKey -> string, s: StoreState, change: Change)
    requires Inv(before, s) && Follows(before, chunkOf, change) && FencesKnown(before, s)
    ensures FencesKnown(before + [change], Next(s, change))
  {
    var all, s' := before + [change], Next(s, change);
    forall i | 0 <= i < |all| && FenceFrom(all, s', KeyOf(all[i].event), i)
      ensures all[i].event.eventId in s'.events
    {
      FenceKnownAfter(before, chunkOf, s, change, i);
    }
  }

  lemma FenceKnownAfter(before: seq<Change>, chunkOf: SourceKey -> string, s: StoreState, change: Change, i: nat)
    requires Inv(before, s) && Follows(before, chunkOf, change) && FencesKnown(before, s)
    requires i <= |before| && FenceFrom(before + [change], Next(s, change), KeyOf((before + [change])[i].event), i)
    ensures (before + [change])[i].event.eventId in Next(s, change).events
  {
    var k := KeyOf((before + [change])[i].event);
    if i < |before| {
      assert Compatible(before[i], change);
      if !(Advances(s, change) && KeyOf(change.event) == k) {
        assert FenceFrom(before, s, k, i);
      }
    } else if !Advances(s, change) {
      var j :| FenceFrom(before, s, k, j);
      assert Compatible(before[j], change);
    }
  }

  lemma FencesKnownNext(changes: seq<Change>, chunkOf: SourceKey -> string, n: nat, s: StoreState)
    requires n < |changes| && Inv(changes[..n], s) && Follows(changes[..n], chunkOf, changes[n])
    requires FencesKnown(changes[..n], s)
    ensures FencesKnown(changes[..n + 1], Next(s, changes[n]))
  {
    FencesKnownStep(changes[..n], chunkOf, s, changes[n]);
    PrefixSnoc(changes, n);
  }

  lemma {:induction false} AllFencesKnown(
    changes: seq<Change>, chunkOf: SourceKey -> string, states: seq<StoreState>, n: nat)
    requires Coherent(changes, chunkOf) && Trace(changes, states) && n <= |changes|
    ensures FencesKnown(changes[..n], states[n])
  {
    if n > 0 {
      AllFencesKnown(changes, chunkOf, states, n - 1);
      OneStep(changes, chunkOf, states, n - 1);
      FencesKnownNext(changes, chunkOf, n - 1, states[n - 1]);
    }
  }
}
