/** What a ledger's tables hold and accept, in terms of the events its run recorded, evicted or not. */
module LedgerTables {
  import opened Prelude
  import opened ShowcaseLedger
  import opened LedgerHistory

  // Event i is of this kind and about this source version.
  predicate Shows(stream: seq<ShowcaseEvent>, i: int, kind: Kind, v: SourceVersion) {
    0 <= i < |stream| && stream[i].draft.kind == kind && stream[i].draft.source == Some(v)
  }

  ghost predicate Shown(stream: seq<ShowcaseEvent>, kind: Kind, v: SourceVersion) {
    exists i :: Shows(stream, i, kind, v)
  }

  // Some event recorded the change to this version under this correlation.
  ghost predicate ChangedUnder(stream: seq<ShowcaseEvent>, v: SourceVersion, correlationId: string) {
    exists i :: Shows(stream, i, SourceChanged, v) && stream[i].draft.correlationId == correlationId
  }

  // No event recorded a change of this source to a version above the bound.
  ghost predicate ChangedUpTo(stream: seq<ShowcaseEvent>, id: Identity, bound: int) {
    forall v: SourceVersion :: v.Id() == id && Shown(stream, SourceChanged, v) ==> v.version <= bound
  }

  ghost predicate TablesInv(h: History) {
    && (forall v :: v in h.ledger.projected <==> Shown(h.stream, ProjectionApplied, v))
    && (forall v :: v in h.ledger.received <==> Shown(h.stream, CdcReceived, v))
    && (forall v, c :: v in h.ledger.changes && h.ledger.changes[v] == c <==> ChangedUnder(h.stream, v, c))
    && (forall id :: id in h.ledger.latest ==>
          && Shown(h.stream, SourceChanged, SourceVersion(id.system, id.recordId, h.ledger.latest[id]))
          && ChangedUpTo(h.stream, id, h.ledger.latest[id]))
    && (forall v :: Shown(h.stream, SourceChanged, v) ==> v.Id() in h.ledger.latest)
  }

  lemma ShownSnoc(stream: seq<ShowcaseEvent>, e: ShowcaseEvent, kind: Kind, v: SourceVersion)
    ensures Shown(stream + [e], kind, v) <==>
      Shown(stream, kind, v) || (e.draft.kind == kind && e.draft.source == Some(v))
  {
    var all := stream + [e];
    if i :| Shows(stream, i, kind, v) {
      assert Shows(all, i, kind, v);
    }
    if e.draft.kind == kind && e.draft.source == Some(v) {
      assert Shows(all, |stream|, kind, v);
    }
    if i :| Shows(all, i, kind, v) {
      assert i < |stream| ==> Shows(stream, i, kind, v);
    }
  }

  lemma ChangedSnoc(stream: seq<ShowcaseEvent>, e: ShowcaseEvent, v: SourceVersion, c: string)
    ensures ChangedUnder(stream + [e], v, c) <==>
      ChangedUnder(stream, v, c)
      || (e.draft.kind.SourceChanged? && e.draft.source == Some(v) && e.draft.correlationId == c)
  {
    var all := stream + [e];
    if i :| Shows(stream, i, SourceChanged, v) && stream[i].draft.correlationId == c {
      assert Shows(all, i, SourceChanged, v) && all[i].draft.correlationId == c;
    }
    if e.draft.kind.SourceChanged? && e.draft.source == Some(v) && e.draft.correlationId == c {
      assert Shows(all, |stream|, SourceChanged, v);
    }
    if i :| Shows(all, i, SourceChanged, v) && all[i].draft.correlationId == c {
      assert i < |stream| ==> Shows(stream, i, SourceChanged, v);
    }
  }

  lemma ChangedIsShown(stream: seq<ShowcaseEvent>, v: SourceVersion, c: string)
    requires ChangedUnder(stream, v, c)
    ensures Shown(stream, SourceChanged, v)
  {
    var i :| Shows(stream, i, SourceChanged, v) && stream[i].draft.correlationId == c;
  }

  // A new change is a change to a version not recorded before.
  lemma ChangeIsNew(h: History, d: Draft, v: SourceVersion)
    requires TablesInv(h) && SourceOk(h.ledger, d) && d.kind.SourceChanged? && d.source == Some(v)
    ensures !Shown(h.stream, SourceChanged, v) && v !in h.ledger.changes
    ensures ChangedUpTo(h.stream, v.Id(), v.version)
  {
    if v in h.ledger.changes {
      ChangedIsShown(h.stream, v, h.ledger.changes[v]);
    }
  }

  lemma SetsStep(h: History, e: ShowcaseEvent)
    requires TablesInv(h) && (e.draft.kind.ProjectionApplied? || e.draft.kind.CdcReceived? ==> e.draft.source.Some?)
    ensures var h' := History(Appended(h.ledger, e), h.stream + [e]);
      && (forall v :: v in h'.ledger.projected <==> Shown(h'.stream, ProjectionApplied, v))
      && (forall v :: v in h'.ledger.received <==> Shown(h'.stream, CdcReceived, v))
  {
    var h' := History(Appended(h.ledger, e), h.stream + [e]);
    forall v ensures v in h'.ledger.projected <==> Shown(h'.stream, ProjectionApplied, v) {
      ShownSnoc(h.stream, e, ProjectionApplied, v);
    }
    forall v ensures v in h'.ledger.received <==> Shown(h'.stream, CdcReceived, v) {
      ShownSnoc(h.stream, e, CdcReceived, v);
    }
  }

  lemma ChangesStep(h: History, e: ShowcaseEvent)
    requires TablesInv(h) && SourceOk(h.ledger, e.draft)
    ensures var h' := History(Appended(h.ledger, e), h.stream + [e]);
      forall v, c :: v in h'.ledger.changes && h'.ledger.changes[v] == c <==> ChangedUnder(h'.stream, v, c)
  {
    var h' := History(Appended(h.ledger, e), h.stream + [e]);
    forall v, c ensures v in h'.ledger.changes && h'.ledger.changes[v] == c <==> ChangedUnder(h'.stream, v, c) {
      ChangedSnoc(h.stream, e, v, c);
      if e.draft.kind.SourceChanged? && e.draft.source == Some(v) {
        ChangeIsNew(h, e.draft, v);
        assert v !in h.ledger.changes;
      }
    }
  }

  lemma LatestStep(h: History, e: ShowcaseEvent)
    requires TablesInv(h) && SourceOk(h.ledger, e.draft)
    ensures var h' := History(Appended(h.ledger, e), h.stream + [e]);
      && (forall id :: id in h'.ledger.latest ==>
            && Shown(h'.stream, SourceChanged, SourceVersion(id.system, id.recordId, h'.ledger.latest[id]))
            && ChangedUpTo(h'.stream, id, h'.ledger.latest[id]))
      && (forall v :: Shown(h'.stream, SourceChanged, v) ==> v.Id() in h'.ledger.latest)
  {
    var h' := History(Appended(h.ledger, e), h.stream + [e]);
    if e.draft.kind.SourceChanged? {
      ChangeIsNew(h, e.draft, e.draft.source.value);
    }
    forall v ensures Shown(h'.stream, SourceChanged, v) <==>
      Shown(h.stream, SourceChanged, v) || (e.draft.kind.SourceChanged? && e.draft.source == Some(v))
    {
      ShownSnoc(h.stream, e, SourceChanged, v);
    }
  }

  lemma TablesStep(h: History, d: Draft)
    requires TablesInv(h)
    ensures TablesInv(HistoryStep(h, d))
  {
    if Recordable(h.ledger, d) {
      SetsStep(h, EventFor(h.ledger, d));
      ChangesStep(h, EventFor(h.ledger, d));
      LatestStep(h, EventFor(h.ledger, d));
    }
  }

  // In every reachable ledger the tables are those of the stream.
  lemma TablesHold(runId: string, maxEvents: nat, drafts: seq<Draft>)
    ensures TablesInv(HistoryOf(runId, maxEvents, drafts))
  {
    var inv := (h: History) => TablesInv(h);
    forall h: History, d | inv(h) ensures inv(HistoryStep(h, d)) {
      TablesStep(h, d);
    }
    EmptyTables(runId, maxEvents);
    RunInvariant(HistoryStep, inv, History(Fresh(runId, maxEvents), []), drafts);
  }

  lemma EmptyTables(runId: string, maxEvents: nat)
    ensures TablesInv(History(Fresh(runId, maxEvents), []))
  {
    forall v, kind ensures !Shown([], kind, v) {
    }
  }

  // What the events so far allow: a change must be to a version above every earlier one; a receipt
  // follows its change under the same correlation, a projection follows its receipt under it, and
  // anything else about a source version follows its projection.
  ghost predicate Follows(stream: seq<ShowcaseEvent>, d: Draft) {
    match d.kind
    case SourceChanged => d.source.Some? && ChangedUpTo(stream, d.source.value.Id(), d.source.value.version - 1)
    case CdcReceived => d.source.Some? && ChangedUnder(stream, d.source.value, d.correlationId)
    case ProjectionApplied =>
      && d.source.Some? && Shown(stream, CdcReceived, d.source.value)
      && ChangedUnder(stream, d.source.value, d.correlationId)
    case _ => d.source.Some? ==> Shown(stream, ProjectionApplied, d.source.value)
  }

  lemma SourceOkExactly(h: History, d: Draft)
    requires TablesInv(h)
    ensures SourceOk(h.ledger, d) <==> Follows(h.stream, d)
  {
    if d.kind.SourceChanged? && d.source.Some? {
      var v := d.source.value;
      if v.Id() in h.ledger.latest && h.ledger.latest[v.Id()] >= v.version {
        assert Shown(h.stream, SourceChanged, SourceVersion(v.system, v.recordId, h.ledger.latest[v.Id()]));
      }
    }
  }

  // Acceptance, for every reachable ledger and every draft, decided on the recorded events alone,
  // however few of them are still retained.
  lemma RecordableExactly(runId: string, maxEvents: nat, drafts: seq<Draft>, d: Draft)
    requires maxEvents > 0
    ensures
      var h := HistoryOf(runId, maxEvents, drafts);
      Recordable(h.ledger, d) <==>
        && NonBlank(runId) && NonBlank(d.correlationId) && SafeDetails(d.details)
        && (h.stream != [] ==> h.stream[|h.stream| - 1].draft.timestamp <= d.timestamp)
        && Follows(h.stream, d)
  {
    InvHolds(runId, maxEvents, drafts);
    TablesHold(runId, maxEvents, drafts);
    SourceOkExactly(HistoryOf(runId, maxEvents, drafts), d);
  }

  // The current projection of a source is the projected version above which no change was recorded.
  lemma CurrentExactly(runId: string, maxEvents: nat, drafts: seq<Draft>, v: SourceVersion)
    requires maxEvents > 0
    ensures
      var h := HistoryOf(runId, maxEvents, drafts);
      IsCurrent(h.ledger, v) <==> Shown(h.stream, ProjectionApplied, v) && ChangedUpTo(h.stream, v.Id(), v.version)
  {
    InvHolds(runId, maxEvents, drafts);
    TablesHold(runId, maxEvents, drafts);
    var h := HistoryOf(runId, maxEvents, drafts);
    if Shown(h.stream, ProjectionApplied, v) {
      assert v in h.ledger.changes && v.Id() in h.ledger.latest;
      var latest := h.ledger.latest[v.Id()];
      assert Shown(h.stream, SourceChanged, SourceVersion(v.system, v.recordId, latest));
    }
  }

  // ------------------------------------------------------------ what may be shown

  ghost predicate PlainInv(h: History) {
    forall i :: 0 <= i < |h.stream| ==> SafeDetails(h.stream[i].draft.details)
  }

  // Whatever a run records, no text in it is empty, longer than 160 characters, or holds a blank, a
  // control character, a quote or a character of markup, and nothing stands under a key of raw data.
  lemma EverythingShownIsPlain(runId: string, maxEvents: nat, drafts: seq<Draft>, i: nat, key: string)
    requires i < |HistoryOf(runId, maxEvents, drafts).stream|
    requires key in HistoryOf(runId, maxEvents, drafts).stream[i].draft.details
    requires HistoryOf(runId, maxEvents, drafts).stream[i].draft.details[key].Text?
    ensures
      var text := HistoryOf(runId, maxEvents, drafts).stream[i].draft.details[key].text;
      1 <= |text| <= 160 && forall c :: c in text ==> '-' <= c <= 'z' && c !in ";<=>?@[\\]^`"
    ensures key !in {"payload", "raw_content", "api_key", "agent_prompt"}
  {
    PlainHolds(runId, maxEvents, drafts);
    SafeDetailsArePlain(HistoryOf(runId, maxEvents, drafts).stream[i].draft.details, key);
  }

  lemma PlainHolds(runId: string, maxEvents: nat, drafts: seq<Draft>)
    ensures PlainInv(HistoryOf(runId, maxEvents, drafts))
  {
    RunInvariant(HistoryStep, (h: History) => PlainInv(h), History(Fresh(runId, maxEvents), []), drafts);
  }

  lemma SafeDetailsArePlain(details: map<string, Detail>, key: string)
    requires SafeDetails(details) && key in details && details[key].Text?
    ensures
      var text := details[key].text;
      1 <= |text| <= 160 && forall c :: c in text ==> '-' <= c <= 'z' && c !in ";<=>?@[\\]^`"
    ensures key !in {"payload", "raw_content", "api_key", "agent_prompt"}
  {
    SafeTextIsPlain(details[key].text);
  }

  lemma SafeCharIsPlain(c: char)
    ensures SafeChar(c) <==> '-' <= c <= 'z' && c !in ";<=>?@[\\]^`"
  {
  }

  lemma SafeTextIsPlain(text: string)
    ensures DisplaySafe(text) <==>
      1 <= |text| <= 160 && forall c :: c in text ==> '-' <= c <= 'z' && c !in ";<=>?@[\\]^`"
  {
    forall i | 0 <= i < |text|
      ensures text[i] in text
      ensures SafeChar(text[i]) <==> '-' <= text[i] <= 'z' && text[i] !in ";<=>?@[\\]^`"
    {
      SafeCharIsPlain(text[i]);
    }
    forall c | c in text ensures exists i :: 0 <= i < |text| && text[i] == c {
    }
  }

  // A snapshot is valid exactly when all its events are of the run, rising, and none is beyond it.
  lemma SnapshotExactly(runId: string, sequence: nat, events: seq<ShowcaseEvent>)
    ensures SnapshotValid(runId, sequence, events) <==>
      && (forall i :: 0 <= i < |events| ==> events[i].runId == runId && events[i].sequence <= sequence)
      && (forall i, j :: 0 <= i < j < |events| ==> events[i].sequence < events[j].sequence)
  {
    if SnapshotValid(runId, sequence, events) {
      forall i, j | 0 <= i < j < |events| ensures events[i].sequence < events[j].sequence {
        Climbs(events, i, j);
      }
    }
  }

  lemma {:induction false} Climbs(events: seq<ShowcaseEvent>, i: nat, j: nat)
    requires i < j < |events|
    requires forall k :: 0 <= k < |events| - 1 ==> events[k].sequence < events[k + 1].sequence
    ensures events[i].sequence < events[j].sequence
  {
    if i + 1 < j {
      Climbs(events, i, j - 1);
    }
  }
}
