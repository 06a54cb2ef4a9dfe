/** Order-independence of the in-memory store: late, repeated and reordered deliveries converge. */
module Convergence {
  import opened Prelude
  import opened Domain
  import opened StableIds
  import opened ContextStore

  // The store states a sequence of ingest calls passes through.
  ghost predicate Trace(changes: seq<Change>, states: seq<StoreState>) {
    && |states| == |changes| + 1
    && states[0] == EMPTY
    && forall i :: 0 <= i < |changes| ==> Stepped(changes, states, i)
  }

  ghost predicate Stepped(changes: seq<Change>, states: seq<StoreState>, i: nat) {
    i < |changes| && i + 1 < |states| && Ingested(states[i], changes[i], states[i + 1])
  }

  ghost predicate Ingested(s: StoreState, change: Change, s': StoreState) {
    exists r :: IngestStep(s, change, s', r)
  }

  // Chunk ids identify the source record within a tenant.
  ghost predicate NamesRecords(chunkOf: SourceKey -> string) {
    forall k1: SourceKey, k2: SourceKey :: k1.tenant == k2.tenant && chunkOf(k1) == chunkOf(k2) ==> k1 == k2
  }

  // What upstream owes the projection: an event id names one event, a version names one event of
  // its record, chunk ids name records, and a record is not deleted before it became valid.
  ghost predicate Coherent(changes: seq<Change>, chunkOf: SourceKey -> string) {
    && NamesRecords(chunkOf)
    && (forall i, j :: 0 <= i < |changes| && 0 <= j < |changes| ==> CoherentAt(changes, chunkOf, i, j))
  }

  predicate CoherentAt(changes: seq<Change>, chunkOf: SourceKey -> string, i: nat, j: nat) {
    i < |changes| && j < |changes| && WellFormed(changes[i], chunkOf) && Compatible(changes[i], changes[j])
  }

  predicate WellFormed(change: Change, chunkOf: SourceKey -> string) {
    && Paired(change)
    && (change.document.Some? ==> change.document.value.chunkId == chunkOf(KeyOf(change.event)))
  }

  // change may follow changes in a coherent sequence.
  ghost predicate Follows(changes: seq<Change>, chunkOf: SourceKey -> string, change: Change) {
    && NamesRecords(chunkOf)
    && WellFormed(change, chunkOf)
    && forall i :: 0 <= i < |changes| ==> WellFormed(changes[i], chunkOf) && Compatible(changes[i], change)
  }

  predicate Compatible(a: Change, b: Change) {
    && (a.event.eventId == b.event.eventId ==> a == b)
    && (KeyOf(a.event) == KeyOf(b.event) && a.event.sourceVersion == b.event.sourceVersion ==> a == b)
    && (KeyOf(a.event) == KeyOf(b.event) && a.event.sourceVersion < b.event.sourceVersion ==>
          a.document.Some? && b.event.operation.Delete? ==> CanTombstone(a.document.value, b.event))
  }

  // No change of the same record carries a higher version.
  ghost predicate Latest(changes: seq<Change>, i: nat)
    requires i < |changes|
  {
    forall j :: 0 <= j < |changes| && KeyOf(changes[j].event) == KeyOf(changes[i].event) ==>
      changes[j].event.sourceVersion <= changes[i].event.sourceVersion
  }

  predicate LiveAt(s: StoreState, k: DocumentKey, d: ContextDocument) {
    k in s.documents && s.documents[k] == d && !d.validity.isDeleted
  }

  // d is what the highest-version change of some record carries.
  ghost predicate Winner(changes: seq<Change>, k: DocumentKey, d: ContextDocument) {
    && DocumentKeyOf(d) == k
    && !d.validity.isDeleted
    && exists i :: 0 <= i < |changes| && changes[i].document == Some(d) && Latest(changes, i)
  }

  // ------------------------------------------------------------ the invariant of a prefix

  ghost predicate Fenced(changes: seq<Change>, s: StoreState) {
    && (forall i :: 0 <= i < |changes| ==> BehindFence(s, changes[i]))
    && (forall k :: k in s.revisions ==> exists i :: FenceFrom(changes, s, k, i))
    && (forall id :: id in s.events ==> exists i :: EventFrom(changes, s, id, i))
  }

  predicate BehindFence(s: StoreState, change: Change) {
    var k := KeyOf(change.event);
    k in s.revisions && change.event.sourceVersion <= s.revisions[k].version
  }

  ghost predicate FenceFrom(changes: seq<Change>, s: StoreState, k: SourceKey, i: int) {
    && 0 <= i < |changes| && k in s.revisions
    && KeyOf(changes[i].event) == k && changes[i].event.sourceVersion == s.revisions[k].version
  }

  ghost predicate EventFrom(changes: seq<Change>, s: StoreState, id: string, i: int) {
    && 0 <= i < |changes| && id in s.events
    && changes[i].event.eventId == id && s.events[id] == FingerprintOf(changes[i])
  }

  // A row that this delete ended: deleted and valid up to its moment, under its version and event.
  predicate EndedBy(d: ContextDocument, e: ChangeEvent) {
    && d.validity.isDeleted && d.validity.validTo == Some(e.occurredAt)
    && d.validity.sourceUpdatedAt == d.validity.indexedAt == e.occurredAt
    && d.source.version == Decimal(e.sourceVersion) && d.lineage.eventId == e.eventId
  }

  // Everything a tombstone leaves alone.
  predicate SameBody(a: ContextDocument, b: ContextDocument) {
    && a.documentId == b.documentId && a.chunkId == b.chunkId && a.tenantId == b.tenantId
    && a.domain == b.domain && a.entityType == b.entityType && a.title == b.title && a.content == b.content
    && a.contentVector == b.contentVector && a.keywords == b.keywords && a.governance == b.governance
    && a.trust == b.trust && a.source.(version := "") == b.source.(version := "")
    && a.lineage.(eventId := "") == b.lineage.(eventId := "")
    && a.validity.validFrom == b.validity.validFrom
  }

  // A stored row descends from an upsert of its record: same row key, record and body.
  ghost predicate RowFrom(changes: seq<Change>, s: StoreState, k: DocumentKey, i: int) {
    && 0 <= i < |changes| && k in s.documents && changes[i].document.Some?
    && var d := changes[i].document.value;
       && DocumentKeyOf(d) == k
       && RecordOf(s.documents[k]) == RecordOf(d)
       && SameBody(s.documents[k], d)
       && DocumentKeyOf(s.documents[k]) == k
  }

  // The change at the fence of its record has had its effect on the rows.
  ghost predicate FenceApplied(s: StoreState, change: Change) {
    var k := KeyOf(change.event);
    k in s.revisions && change.event.sourceVersion == s.revisions[k].version ==>
      if change.document.Some? then
        var d := change.document.value;
        DocumentKeyOf(d) in s.documents && s.documents[DocumentKeyOf(d)] == d
      else
        forall row :: row in s.documents && RecordOf(s.documents[row]) == k ==> EndedBy(s.documents[row], change.event)
  }

  ghost predicate Inv(changes: seq<Change>, s: StoreState) {
    && Fenced(changes, s)
    && (forall k :: k in s.documents ==> exists i :: RowFrom(changes, s, k, i))
    && (forall i :: 0 <= i < |changes| ==> FenceApplied(s, changes[i]))
  }

  // A paired, coherent change alters the store exactly when it is strictly above the fence.
  predicate Advances(s: StoreState, change: Change) {
    var k := KeyOf(change.event);
    k !in s.revisions || s.revisions[k].version < change.event.sourceVersion
  }

  function AfterChange(s: StoreState, change: Change): StoreState
    requires Paired(change)
  {
    WithRevision(
      s.(documents := if change.document.Some?
                      then s.documents[DocumentKeyOf(change.document.value) := change.document.value]
                      else TombstoneAll(s.documents, change.event)),
      change)
  }

  function Next(s: StoreState, change: Change): StoreState
    requires Paired(change)
  {
    if Advances(s, change) then AfterChange(s, change) else s
  }

  lemma StepEffect(changes: seq<Change>, chunkOf: SourceKey -> string, s: StoreState, change: Change, s': StoreState)
    requires Follows(changes, chunkOf, change) && Inv(changes, s) && Ingested(s, change, s')
    ensures s' == Next(s, change)
  {
    var e := change.event;
    if e.eventId in s.events {
      var i :| EventFrom(changes, s, e.eventId, i);
      assert Compatible(changes[i], change);
      assert BehindFence(s, changes[i]);
    } else if Advances(s, change) && change.document.None? {
      DeleteAccepted(changes, chunkOf, s, change);
    }
  }

  lemma UpsertTombstonable(s: StoreState, earlier: Change, change: Change)
    requires Compatible(earlier, change) && earlier.document.Some? && Paired(earlier) && Paired(change)
    requires KeyOf(earlier.event) == KeyOf(change.event) && change.document.None?
    requires BehindFence(s, earlier) && Advances(s, change)
    ensures CanTombstone(earlier.document.value, change.event)
  {
  }

  lemma DeleteAccepted(changes: seq<Change>, chunkOf: SourceKey -> string, s: StoreState, change: Change)
    requires Follows(changes, chunkOf, change) && Inv(changes, s) && Advances(s, change) && change.document.None?
    ensures AllTombstonable(s.documents, change.event)
  {
    forall k | k in s.documents && RecordOf(s.documents[k]) == KeyOf(change.event)
      ensures CanTombstone(s.documents[k], change.event)
    {
      var i :| RowFrom(changes, s, k, i);
      assert WellFormed(changes[i], chunkOf) && BehindFence(s, changes[i]);
      UpsertTombstonable(s, changes[i], change);
    }
  }

  lemma FencesStep(changes: seq<Change>, s: StoreState, change: Change)
    requires Paired(change) && Fenced(changes, s)
    ensures
      var s', all := Next(s, change), changes + [change];
      && (forall i :: 0 <= i < |all| ==> BehindFence(s', all[i]))
      && (forall k :: k in s'.revisions ==> exists i :: FenceFrom(all, s', k, i))
  {
    var s' := Next(s, change);
    var all := changes + [change];
    var n := |changes|;
    var e := change.event;
    assert s'.revisions == if Advances(s, change)
        then s.revisions[KeyOf(e) := Revision(e.sourceVersion, e.eventId, ContentHash(change))]
        else s.revisions;
    forall i | 0 <= i < |all| ensures BehindFence(s', all[i]) {
      assert i < n ==> BehindFence(s, changes[i]);
    }
    forall k | k in s'.revisions ensures exists i :: FenceFrom(all, s', k, i) {
      if Advances(s, change) && k == KeyOf(change.event) {
        assert FenceFrom(all, s', k, n);
      } else {
        var i :| FenceFrom(changes, s, k, i);
        assert FenceFrom(all, s', k, i);
      }
    }
  }

  lemma EventsStep(changes: seq<Change>, s: StoreState, change: Change)
    requires Paired(change) && Fenced(changes, s)
    ensures forall id :: id in Next(s, change).events ==>
              exists i :: EventFrom(changes + [change], Next(s, change), id, i)
  {
    var s' := Next(s, change);
    var all := changes + [change];
    assert s'.events == if Advances(s, change)
        then s.events[change.event.eventId := FingerprintOf(change)] else s.events;
    forall id | id in s'.events ensures exists i :: EventFrom(all, s', id, i) {
      if Advances(s, change) && id == change.event.eventId {
        assert EventFrom(all, s', id, |changes|);
      } else {
        var i :| EventFrom(changes, s, id, i);
        assert EventFrom(all, s', id, i);
      }
    }
  }

  // How one row fares: replaced, tombstoned or untouched.
  lemma RowAfter(s: StoreState, change: Change, k: DocumentKey)
    requires Paired(change) && Advances(s, change) && k in AfterChange(s, change).documents
    ensures
      var row := AfterChange(s, change).documents[k];
      if change.document.Some? then
        if k == DocumentKeyOf(change.document.value) then row == change.document.value
        else k in s.documents && row == s.documents[k]
      else
        && k in s.documents
        && row == if RecordOf(s.documents[k]) == KeyOf(change.event) then Tombstoned(s.documents[k], change.event)
                  else s.documents[k]
  {
  }

  lemma RowStep(changes: seq<Change>, s: StoreState, change: Change, k: DocumentKey)
    requires Paired(change) && k in Next(s, change).documents
    requires forall row :: row in s.documents ==> exists i :: RowFrom(changes, s, row, i)
    ensures exists i :: RowFrom(changes + [change], Next(s, change), k, i)
  {
    var s' := Next(s, change);
    var all := changes + [change];
    if Advances(s, change) {
      RowAfter(s, change, k);
    }
    if Advances(s, change) && change.document.Some? && k == DocumentKeyOf(change.document.value) {
      assert RowFrom(all, s', k, |changes|);
    } else {
      var i :| RowFrom(changes, s, k, i);
      assert all[i] == changes[i];
      assert RowFrom(all, s', k, i);
    }
  }

  lemma NewFenceApplied(changes: seq<Change>, chunkOf: SourceKey -> string, s: StoreState, change: Change)
    requires Follows(changes, chunkOf, change) && Inv(changes, s)
    ensures FenceApplied(Next(s, change), change)
  {
    var s' := Next(s, change);
    var k := KeyOf(change.event);
    if Advances(s, change) {
      forall row | row in s'.documents && RecordOf(s'.documents[row]) == k && change.document.None?
        ensures EndedBy(s'.documents[row], change.event)
      {
        RowAfter(s, change, row);
      }
    } else if change.event.sourceVersion == s.revisions[k].version {
      var j :| FenceFrom(changes, s, k, j);
      assert Compatible(changes[j], change);
      assert changes[j] == change;
      assert FenceApplied(s, changes[j]);
    }
  }

  lemma OldFenceApplied(chunkOf: SourceKey -> string, s: StoreState, change: Change, earlier: Change)
    requires NamesRecords(chunkOf) && WellFormed(change, chunkOf) && WellFormed(earlier, chunkOf)
    requires FenceApplied(s, earlier)
    requires BehindFence(s, earlier)
    ensures FenceApplied(Next(s, change), earlier)
  {
    var s' := Next(s, change);
    var k, changed := KeyOf(earlier.event), KeyOf(change.event);
    if Advances(s, change) && k != changed {
      if earlier.document.Some? {
        var row := DocumentKeyOf(earlier.document.value);
        if row in s.documents {
          assert k.tenant != changed.tenant || chunkOf(k) != chunkOf(changed);
          RowAfter(s, change, row);
        }
      } else {
        forall row |
          && row in s'.documents && RecordOf(s'.documents[row]) == k
          && earlier.event.sourceVersion == s'.revisions[k].version
          ensures EndedBy(s'.documents[row], earlier.event)
        {
          RowAfter(s, change, row);
        }
      }
    }
  }

  lemma RowsStep(changes: seq<Change>, s: StoreState, change: Change)
    requires Paired(change) && forall row :: row in s.documents ==> exists i :: RowFrom(changes, s, row, i)
    ensures forall k :: k in Next(s, change).documents ==>
              exists i :: RowFrom(changes + [change], Next(s, change), k, i)
  {
    forall k | k in Next(s, change).documents ensures exists i :: RowFrom(changes + [change], Next(s, change), k, i) {
      RowStep(changes, s, change, k);
    }
  }

  lemma FencesAppliedStep(changes: seq<Change>, chunkOf: SourceKey -> string, s: StoreState, change: Change)
    requires Follows(changes, chunkOf, change) && Inv(changes, s)
    ensures var all := changes + [change];
      forall i :: 0 <= i < |all| ==> FenceApplied(Next(s, change), all[i])
  {
    NewFenceApplied(changes, chunkOf, s, change);
    forall i | 0 <= i < |changes| ensures FenceApplied(Next(s, change), changes[i]) {
      OldFenceApplied(chunkOf, s, change, changes[i]);
    }
  }

  lemma InvStep(changes: seq<Change>, chunkOf: SourceKey -> string, s: StoreState, change: Change, s': StoreState)
    requires Follows(changes, chunkOf, change) && Inv(changes, s) && Ingested(s, change, s')
    ensures Inv(changes + [change], s')
  {
    StepEffect(changes, chunkOf, s, change, s');
    FencesStep(changes, s, change);
    EventsStep(changes, s, change);
    RowsStep(changes, s, change);
    FencesAppliedStep(changes, chunkOf, s, change);
  }

  lemma {:induction false} InvHolds(changes: seq<Change>, chunkOf: SourceKey -> string, states: seq<StoreState>, n: nat)
    requires Coherent(changes, chunkOf) && Trace(changes, states) && n <= |changes|
    ensures Inv(changes[..n], states[n])
  {
    if n > 0 {
      InvHolds(changes, chunkOf, states, n - 1);
      assert Stepped(changes, states, n - 1);
      PrefixSnoc(changes, n - 1);
      PrefixFollows(changes, chunkOf, n - 1);
      InvStep(changes[..n - 1], chunkOf, states[n - 1], changes[n - 1], states[n]);
    }
  }

  lemma PrefixFollows(changes: seq<Change>, chunkOf: SourceKey -> string, n: nat)
    requires Coherent(changes, chunkOf) && n < |changes|
    ensures Follows(changes[..n], chunkOf, changes[n])
  {
    assert CoherentAt(changes, chunkOf, n, n);
    forall i | 0 <= i < n ensures WellFormed(changes[i], chunkOf) && Compatible(changes[i], changes[n]) {
      assert CoherentAt(changes, chunkOf, i, n);
    }
  }

  // One delivery inside a coherent sequence.
  lemma OneStep(changes: seq<Change>, chunkOf: SourceKey -> string, states: seq<StoreState>, n: nat)
    requires Coherent(changes, chunkOf) && Trace(changes, states) && n < |changes|
    ensures Follows(changes[..n], chunkOf, changes[n]) && Inv(changes[..n], states[n])
    ensures states[n + 1] == Next(states[n], changes[n])
  {
    InvHolds(changes, chunkOf, states, n);
    PrefixFollows(changes, chunkOf, n);
    assert Stepped(changes, states, n);
    StepEffect(changes[..n], chunkOf, states[n], changes[n], states[n + 1]);
  }

  // ------------------------------------------------------------ main results

  // Convergence: after any number of ingest calls, in any order and with any repetition, the live
  // documents are exactly those of each record's highest-version change, and none when that is a
  // delete.
  lemma LiveDocumentsAreTheWinners(
    changes: seq<Change>, chunkOf: SourceKey -> string, states: seq<StoreState>, k: DocumentKey, d: ContextDocument)
    requires Coherent(changes, chunkOf) && Trace(changes, states)
    ensures LiveAt(states[|changes|], k, d) <==> Winner(changes, k, d)
  {
    var s := states[|changes|];
    assert changes[..|changes|] == changes;
    InvHolds(changes, chunkOf, states, |changes|);
    if LiveAt(s, k, d) {
      var i :| RowFrom(changes, s, k, i);
      var key := KeyOf(changes[i].event);
      var j :| FenceFrom(changes, s, key, j);
      assert Latest(changes, j);
      assert FenceApplied(s, changes[j]);
      assert CoherentAt(changes, chunkOf, i, j) && CoherentAt(changes, chunkOf, j, i);
      assert changes[j].document == Some(d);
    }
    if Winner(changes, k, d) {
      var i :| 0 <= i < |changes| && changes[i].document == Some(d) && Latest(changes, i);
      var key := KeyOf(changes[i].event);
      var j :| FenceFrom(changes, s, key, j);
      assert FenceApplied(s, changes[i]);
      assert CoherentAt(changes, chunkOf, i, j);
    }
  }

  // Two deliveries of the same set of changes end in the same live view.
  lemma SameChangesSameLiveView(
    a: seq<Change>, b: seq<Change>, chunkOf: SourceKey -> string,
    statesA: seq<StoreState>, statesB: seq<StoreState>, k: DocumentKey, d: ContextDocument)
    requires Coherent(a, chunkOf) && Trace(a, statesA)
    requires Trace(b, statesB) && (forall c :: c in a <==> c in b)
    ensures LiveAt(statesA[|a|], k, d) <==> LiveAt(statesB[|b|], k, d)
  {
    forall i, j | 0 <= i < |b| && 0 <= j < |b| ensures CoherentAt(b, chunkOf, i, j) {
      assert b[i] in a && b[j] in a;
      var x :| 0 <= x < |a| && a[x] == b[i];
      var y :| 0 <= y < |a| && a[y] == b[j];
      assert CoherentAt(a, chunkOf, x, y);
    }
    LiveDocumentsAreTheWinners(a, chunkOf, statesA, k, d);
    LiveDocumentsAreTheWinners(b, chunkOf, statesB, k, d);
    WinnersOfSameChanges(a, b, k, d);
    WinnersOfSameChanges(b, a, k, d);
  }

  lemma WinnersOfSameChanges(a: seq<Change>, b: seq<Change>, k: DocumentKey, d: ContextDocument)
    requires forall c :: c in a <==> c in b
    ensures Winner(a, k, d) ==> Winner(b, k, d)
  {
    if Winner(a, k, d) {
      var i :| 0 <= i < |a| && a[i].document == Some(d) && Latest(a, i);
      assert a[i] in b;
      var j :| 0 <= j < |b| && b[j] == a[i];
      forall m | 0 <= m < |b| && KeyOf(b[m].event) == KeyOf(b[j].event)
        ensures b[m].event.sourceVersion <= b[j].event.sourceVersion
      {
        assert b[m] in a;
        var x :| 0 <= x < |a| && a[x] == b[m];
      }
      assert Latest(b, j);
    }
  }

  // Whatever else arrives, and even when the deliveries are not coherent: fences never fall, and
  // a change at or below a version its fence ever reached changes nothing.
  lemma {:induction false} FencesNeverFall(
    changes: seq<Change>, states: seq<StoreState>, i: nat, j: nat, k: SourceKey)
    requires Trace(changes, states) && i <= j <= |changes| && k in states[i].revisions
    ensures k in states[j].revisions && states[i].revisions[k].version <= states[j].revisions[k].version
    ensures j < |changes| && BehindFence(states[i], changes[j]) && KeyOf(changes[j].event) == k ==>
              states[j + 1] == states[j]
  {
    if i < j {
      FencesNeverFall(changes, states, i, j - 1, k);
      assert Stepped(changes, states, j - 1);
    }
    if j < |changes| {
      assert Stepped(changes, states, j);
    }
  }

  // A record whose highest version so far is a delete shows no live row, whichever older upserts
  // arrive around it: every row it has was ended by that delete, and otherwise is as some upsert of
  // the record left it.
  lemma DeletedStaysDeleted(
    changes: seq<Change>, chunkOf: SourceKey -> string, states: seq<StoreState>, i: nat, n: nat, row: DocumentKey)
    requires Coherent(changes, chunkOf) && Trace(changes, states) && i < n <= |changes|
    requires changes[i].event.operation.Delete?
    requires forall j :: 0 <= j < n && KeyOf(changes[j].event) == KeyOf(changes[i].event) ==>
               changes[j].event.sourceVersion <= changes[i].event.sourceVersion
    requires row in states[n].documents && RecordOf(states[n].documents[row]) == KeyOf(changes[i].event)
    ensures states[n].documents[row].validity.isDeleted && EndedBy(states[n].documents[row], changes[i].event)
    ensures exists m ::
      0 <= m < n && changes[m].document.Some? && SameBody(states[n].documents[row], changes[m].document.value)
  {
    InvHolds(changes, chunkOf, states, n);
    var prefix := changes[..n];
    assert prefix[i] == changes[i];
    var k := KeyOf(changes[i].event);
    var j :| FenceFrom(prefix, states[n], k, j);
    assert prefix[j] == changes[j];
    assert CoherentAt(changes, chunkOf, i, j);
    assert changes[i].document.None?;
    assert states[n].revisions[k].version == changes[i].event.sourceVersion;
    assert FenceApplied(states[n], prefix[i]);
    var m :| RowFrom(prefix, states[n], row, m);
    assert changes[m] == prefix[m];
  }

  // The record has a row that became valid after the delete was stamped.
  predicate HasLaterRow(s: StoreState, e: ChangeEvent) {
    exists row :: row in s.documents && RecordOf(s.documents[row]) == KeyOf(e) && !CanTombstone(s.documents[row], e)
  }

  predicate HasLiveRow(s: StoreState, k: SourceKey) {
    exists row :: row in s.documents && RecordOf(s.documents[row]) == k && !s.documents[row].validity.isDeleted
  }

  // Coherence is needed. In any state of the store a new delete above the fence is refused exactly
  // when some row of its record began to be valid after it; then fences and events stay as they
  // were and every such row stays untouched, live if it was. Otherwise the record has no live row.
  lemma DeleteBeforeValidityIsRefused(s: StoreState, e: ChangeEvent, s': StoreState, r: Result<Disposition>)
    requires e.operation.Delete? && e.eventId !in s.events && Advances(s, Change(e, None))
    requires IngestStep(s, Change(e, None), s', r)
    ensures r == if HasLaterRow(s, e) then Raise(ValueError) else Ok(Applied)
    ensures HasLaterRow(s, e) ==>
      && s'.revisions == s.revisions && s'.events == s.events && Advances(s', Change(e, None))
      && (forall row :: row in s.documents && !CanTombstone(s.documents[row], e) ==>
            row in s'.documents && s'.documents[row] == s.documents[row])
    ensures !HasLaterRow(s, e) ==> BehindFence(s', Change(e, None)) && !HasLiveRow(s', KeyOf(e))
  {
    assert HasLaterRow(s, e) <==> !AllTombstonable(s.documents, e);
    assert Classify(s, Change(e, None)) == None;
  }
}
