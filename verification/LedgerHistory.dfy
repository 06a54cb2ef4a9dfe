/** What holds of every showcase ledger over whole runs: order, retention, replay, supersession. */
module LedgerHistory {
  import opened Prelude
  import opened ShowcaseLedger

  // A ledger together with every event it ever accepted, evicted or not.
  datatype History = History(ledger: LedgerState, stream: seq<ShowcaseEvent>)

  function HistoryStep(h: History, d: Draft): History {
    if Recordable(h.ledger, d) then
      History(Recorded(h.ledger, d), h.stream + [EventFor(h.ledger, d)])
    else h
  }

  function HistoryOf(runId: string, maxEvents: nat, drafts: seq<Draft>): History {
    RunFrom(HistoryStep, History(Fresh(runId, maxEvents), []), drafts)
  }

  // ------------------------------------------------------------ invariant

  ghost predicate ChainInv(s: LedgerState) {
    && s.projected <= s.received <= s.changes.Keys
    && (forall v :: v in s.changes ==> v.Id() in s.latest && v.version <= s.latest[v.Id()])
    && (forall id :: id in s.latest ==> SourceVersion(id.system, id.recordId, s.latest[id]) in s.changes)
  }

  // Numbered from one without gaps, all of one run, and never going back in time.
  ghost predicate Orderly(runId: string, stream: seq<ShowcaseEvent>) {
    && (forall i :: 0 <= i < |stream| ==> stream[i].sequence == i + 1 && stream[i].runId == runId)
    && (forall i, j :: 0 <= i < j < |stream| ==> stream[i].draft.timestamp <= stream[j].draft.timestamp)
  }

  ghost predicate StreamInv(h: History) {
    && h.ledger.events == Tail(h.stream, h.ledger.maxEvents)
    && h.ledger.sequence == |h.stream|
    && Orderly(h.ledger.runId, h.stream)
    && h.ledger.last == (if h.stream == [] then None else Some(h.stream[|h.stream| - 1].draft.timestamp))
  }

  ghost predicate Inv(h: History) {
    ChainInv(h.ledger) && StreamInv(h)
  }

  lemma TailAppend<T>(s: seq<T>, x: T, n: nat)
    requires n > 0
    ensures Tail(Tail(s, n) + [x], n) == Tail(s + [x], n)
  {
  }

  lemma ChainStep(s: LedgerState, d: Draft)
    requires ChainInv(s)
    ensures ChainInv(Recorded(s, d))
  {
    var s' := Recorded(s, d);
    forall v | v in s'.changes ensures v.Id() in s'.latest && v.version <= s'.latest[v.Id()] {
      assert v in s.changes || d.source == Some(v);
    }
  }

  lemma AppendedLog(s: LedgerState, e: ShowcaseEvent)
    ensures var s' := Appended(s, e);
      && s'.events == Tail(s.events + [e], s.maxEvents) && s'.sequence == e.sequence
      && s'.last == Some(e.draft.timestamp) && s'.runId == s.runId && s'.maxEvents == s.maxEvents
  {
  }

  lemma StreamAppend(h: History, e: ShowcaseEvent)
    requires StreamInv(h) && h.ledger.maxEvents > 0
    requires e.sequence == h.ledger.sequence + 1 && e.runId == h.ledger.runId && TimestampOk(h.ledger, e.draft)
    ensures StreamInv(History(Appended(h.ledger, e), h.stream + [e]))
  {
    AppendedLog(h.ledger, e);
    TailAppend(h.stream, e, h.ledger.maxEvents);
    OrderlyAppend(h.ledger.runId, h.stream, e);
  }

  lemma OrderlyAppend(runId: string, stream: seq<ShowcaseEvent>, e: ShowcaseEvent)
    requires Orderly(runId, stream) && e.sequence == |stream| + 1 && e.runId == runId
    requires stream != [] ==> stream[|stream| - 1].draft.timestamp <= e.draft.timestamp
    ensures Orderly(runId, stream + [e])
  {
    var all, n := stream + [e], |stream|;
    forall i, j | 0 <= i < j <= n ensures all[i].draft.timestamp <= all[j].draft.timestamp {
      assert all[i] == stream[i];
      if j == n && i < n - 1 {
        assert stream[i].draft.timestamp <= stream[n - 1].draft.timestamp;
      }
    }
  }

  lemma StreamStep(h: History, d: Draft)
    requires StreamInv(h) && h.ledger.maxEvents > 0
    ensures StreamInv(HistoryStep(h, d))
  {
    if Recordable(h.ledger, d) {
      StreamAppend(h, EventFor(h.ledger, d));
    }
  }

  ghost predicate InvOf(h: History, runId: string, maxEvents: nat) {
    Inv(h) && h.ledger.maxEvents == maxEvents && h.ledger.runId == runId
  }

  lemma InvStep(h: History, d: Draft, runId: string, maxEvents: nat)
    requires InvOf(h, runId, maxEvents) && maxEvents > 0
    ensures InvOf(HistoryStep(h, d), runId, maxEvents)
  {
    ChainStep(h.ledger, d);
    StreamStep(h, d);
    assert HistoryStep(h, d).ledger == Recorded(h.ledger, d);
  }

  // Every reachable ledger: projected versions were received, received ones were recorded as
  // changes, the latest version of a source is the highest recorded one, sequence numbers count
  // the accepted events without gaps, timestamps never go back, and exactly the newest maxEvents
  // events are retained.
  lemma InvHolds(runId: string, maxEvents: nat, drafts: seq<Draft>)
    requires maxEvents > 0
    ensures Inv(HistoryOf(runId, maxEvents, drafts))
    ensures HistoryOf(runId, maxEvents, drafts).ledger.maxEvents == maxEvents
    ensures HistoryOf(runId, maxEvents, drafts).ledger.runId == runId
  {
    var inv := (h: History) => InvOf(h, runId, maxEvents);
    forall h: History, d | inv(h) ensures inv(HistoryStep(h, d)) {
      InvStep(h, d, runId, maxEvents);
    }
    RunInvariant(HistoryStep, inv, History(Fresh(runId, maxEvents), []), drafts);
  }

  // ------------------------------------------------------------ replay

  function Retaining(s: LedgerState, stream: seq<ShowcaseEvent>, maxEvents: nat): LedgerState {
    s.(maxEvents := maxEvents, events := Tail(stream, maxEvents))
  }

  ghost predicate Rebuilt(h: History, capacity: nat) {
    Replay(h.ledger.runId, h.stream, capacity) == Ok(Retaining(h.ledger, h.stream, capacity))
  }

  // Replaying everything a run ever recorded, into a ledger of any capacity, rebuilds the run's
  // ledger but for how many of its newest events are kept.
  lemma FullReplayRebuilds(runId: string, maxEvents: nat, drafts: seq<Draft>, capacity: nat)
    requires NonBlank(runId) && maxEvents > 0 && capacity > 0
    ensures
      var h := HistoryOf(runId, maxEvents, drafts);
      Replay(runId, h.stream, capacity) == Ok(Retaining(h.ledger, h.stream, capacity))
  {
    var inv := (h: History) => h.ledger.runId == runId && Rebuilt(h, capacity);
    forall h: History, d | inv(h) ensures inv(HistoryStep(h, d)) {
      ReplayFollows(h, d, capacity);
    }
    assert inv(History(Fresh(runId, maxEvents), []));
    RunInvariant(HistoryStep, inv, History(Fresh(runId, maxEvents), []), drafts);
  }

  lemma ReplayFollows(h: History, d: Draft, capacity: nat)
    requires capacity > 0 && NonBlank(h.ledger.runId)
    requires Rebuilt(h, capacity)
    ensures Rebuilt(HistoryStep(h, d), capacity) && HistoryStep(h, d).ledger.runId == h.ledger.runId
  {
    if Recordable(h.ledger, d) {
      var e := EventFor(h.ledger, d);
      var h' := HistoryStep(h, d);
      assert h'.stream[..|h'.stream| - 1] == h.stream;
      TailAppend(h.stream, e, capacity);
      assert Replayable(Retaining(h.ledger, h.stream, capacity), e);
      assert Appended(Retaining(h.ledger, h.stream, capacity), e) == Retaining(h'.ledger, h'.stream, capacity);
    }
  }

  // Replay accepts exactly the streams that recording can produce.
  lemma ReplayAcceptsExactlyRecordings(runId: string, maxEvents: nat, stream: seq<ShowcaseEvent>)
    requires NonBlank(runId) && maxEvents > 0
    requires forall i :: 0 <= i < |stream| ==> Constructible(stream[i])
    ensures Replay(runId, stream, maxEvents).Ok?
       <==> exists drafts :: HistoryOf(runId, maxEvents, drafts).stream == stream
  {
    if Replay(runId, stream, maxEvents).Ok? {
      ReplayedIsRecorded(runId, maxEvents, stream);
    }
    if exists drafts :: HistoryOf(runId, maxEvents, drafts).stream == stream {
      var drafts :| HistoryOf(runId, maxEvents, drafts).stream == stream;
      FullReplayRebuilds(runId, maxEvents, drafts, maxEvents);
    }
  }

  function DraftsOf(stream: seq<ShowcaseEvent>): seq<Draft> {
    seq(|stream|, i requires 0 <= i < |stream| => stream[i].draft)
  }

  lemma RecordedAgain(h: History, e: ShowcaseEvent)
    requires Constructible(e) && Replayable(h.ledger, e)
    ensures HistoryStep(h, e.draft) == History(Appended(h.ledger, e), h.stream + [e])
  {
    assert EventFor(h.ledger, e.draft) == e;
  }

  lemma ReplaySnoc(runId: string, maxEvents: nat, before: seq<ShowcaseEvent>, e: ShowcaseEvent)
    requires Replay(runId, before + [e], maxEvents).Ok?
    ensures Replay(runId, before, maxEvents).Ok? && Replayable(Replay(runId, before, maxEvents).value, e)
    ensures Replay(runId, before + [e], maxEvents) == Ok(Appended(Replay(runId, before, maxEvents).value, e))
  {
    assert (before + [e])[..|before|] == before;
  }

  lemma HistorySnoc(runId: string, maxEvents: nat, drafts: seq<Draft>, d: Draft)
    ensures HistoryOf(runId, maxEvents, drafts + [d]) == HistoryStep(HistoryOf(runId, maxEvents, drafts), d)
  {
    RunThen(HistoryStep, History(Fresh(runId, maxEvents), []), drafts, d);
  }

  lemma DraftsSnoc(before: seq<ShowcaseEvent>, e: ShowcaseEvent)
    ensures DraftsOf(before + [e]) == DraftsOf(before) + [e.draft]
  {
  }

  lemma {:induction false} ReplayedIsRecorded(runId: string, maxEvents: nat, stream: seq<ShowcaseEvent>)
    requires maxEvents > 0 && Replay(runId, stream, maxEvents).Ok?
    requires forall i :: 0 <= i < |stream| ==> Constructible(stream[i])
    ensures HistoryOf(runId, maxEvents, DraftsOf(stream)) == History(Replay(runId, stream, maxEvents).value, stream)
  {
    if stream == [] {
      assert DraftsOf(stream) == [];
    } else {
      var before, e := stream[..|stream| - 1], stream[|stream| - 1];
      assert stream == before + [e];
      ReplaySnoc(runId, maxEvents, before, e);
      ReplayedIsRecorded(runId, maxEvents, before);
      DraftsSnoc(before, e);
      HistorySnoc(runId, maxEvents, DraftsOf(before), e.draft);
      RecordedAgain(HistoryOf(runId, maxEvents, DraftsOf(before)), e);
    }
  }

  // The retained events alone can be replayed exactly as long as nothing has been evicted.
  lemma RetainedSuffixReplays(runId: string, maxEvents: nat, drafts: seq<Draft>, capacity: nat)
    requires NonBlank(runId) && maxEvents > 0 && capacity > 0
    ensures
      var h := HistoryOf(runId, maxEvents, drafts);
      Replay(runId, h.ledger.events, capacity).Ok? <==> |h.stream| <= maxEvents
  {
    var h := HistoryOf(runId, maxEvents, drafts);
    InvHolds(runId, maxEvents, drafts);
    if |h.stream| <= maxEvents {
      FullReplayRebuilds(runId, maxEvents, drafts, capacity);
    } else {
      var first := h.ledger.events[..1];
      assert first[0].sequence > 1;
      assert first[..0] == [];
      assert Replay(runId, first, capacity).Raise?;
      ReplayStops(runId, h.ledger.events, capacity, 1);
    }
  }

  // ------------------------------------------------------------ cursor reads

  function Max(a: int, b: int): int {
    if a < b then b else a
  }

  function Min(a: int, b: int): int {
    if a < b then a else b
  }

  // A read after a cursor returns exactly the recorded events beyond both the cursor and the
  // eviction horizon, and they always form a valid snapshot: a poller sees every event once and in
  // order, and loses events exactly when more than maxEvents were recorded since its last read.
  lemma CursorReads(runId: string, maxEvents: nat, drafts: seq<Draft>, cursor: nat)
    requires maxEvents > 0
    ensures
      var h := HistoryOf(runId, maxEvents, drafts);
      var n := |h.stream|;
      var read := EventsAfter(h.ledger.events, cursor);
      && read == h.stream[Min(Max(cursor, n - maxEvents), n)..]
      && (cursor <= n ==> (read == h.stream[cursor..] <==> n - cursor <= maxEvents))
      && SnapshotValid(runId, h.ledger.sequence, read)
  {
    var h := HistoryOf(runId, maxEvents, drafts);
    InvHolds(runId, maxEvents, drafts);
    ReadsOf(h, cursor);
    SuffixIsSnapshot(h, ReadFrom(h, cursor));
    if cursor <= |h.stream| && ReadFrom(h, cursor) != cursor {
      assert |h.stream[ReadFrom(h, cursor)..]| != |h.stream[cursor..]|;
    }
  }

  // Where a read after the cursor begins.
  function ReadFrom(h: History, cursor: nat): (from: nat)
    ensures from <= |h.stream|
  {
    Min(Max(cursor, |h.stream| - h.ledger.maxEvents), |h.stream|)
  }

  lemma ReadsOf(h: History, cursor: nat)
    requires StreamInv(h)
    ensures EventsAfter(h.ledger.events, cursor) == h.stream[ReadFrom(h, cursor)..]
  {
    var base := Max(0, |h.stream| - h.ledger.maxEvents);
    SuffixNumbers(h, base);
    assert Tail(h.stream, h.ledger.maxEvents) == h.stream[base..];
    assert ReadFrom(h, cursor) == Min(Max(cursor, base), |h.stream|);
    SuffixAfter(h.stream, base, cursor);
  }

  lemma SuffixAfter(stream: seq<ShowcaseEvent>, base: nat, cursor: nat)
    requires base <= |stream|
    requires forall i :: 0 <= i < |stream[base..]| ==> stream[base..][i].sequence == base + i + 1
    ensures EventsAfter(stream[base..], cursor) == stream[Min(Max(cursor, base), |stream|)..]
  {
    AfterContiguous(stream[base..], base, cursor);
    if base < cursor < |stream| {
      assert stream[base..][cursor - base..] == stream[cursor..];
    }
  }

  lemma SuffixNumbers(h: History, from: nat)
    requires StreamInv(h) && from <= |h.stream|
    ensures forall i :: 0 <= i < |h.stream[from..]| ==> h.stream[from..][i].sequence == from + i + 1
    ensures forall i :: 0 <= i < |h.stream[from..]| ==> h.stream[from..][i].runId == h.ledger.runId
  {
    forall i | 0 <= i < |h.stream[from..]|
      ensures h.stream[from..][i].sequence == from + i + 1 && h.stream[from..][i].runId == h.ledger.runId
    {
      assert h.stream[from..][i] == h.stream[from + i];
    }
  }

  lemma SuffixIsSnapshot(h: History, from: nat)
    requires StreamInv(h) && from <= |h.stream|
    ensures SnapshotValid(h.ledger.runId, h.ledger.sequence, h.stream[from..])
  {
    SuffixNumbers(h, from);
  }

  lemma {:induction false} AfterContiguous(events: seq<ShowcaseEvent>, base: nat, cursor: nat)
    requires forall i :: 0 <= i < |events| ==> events[i].sequence == base + i + 1
    ensures EventsAfter(events, cursor)
         == if cursor <= base then events else if cursor >= base + |events| then [] else events[cursor - base..]
  {
    if events != [] {
      AfterContiguous(events[1..], base + 1, cursor);
    }
  }

  // ------------------------------------------------------------ supersession

  ghost predicate Grown(before: LedgerState, after: LedgerState) {
    && before.projected <= after.projected
    && forall id :: id in before.latest ==> id in after.latest && before.latest[id] <= after.latest[id]
  }

  lemma RunsGrow(h: History, drafts: seq<Draft>)
    ensures Grown(h.ledger, RunFrom(HistoryStep, h, drafts).ledger)
  {
    RunInvariant(HistoryStep, (x: History) => Grown(h.ledger, x.ledger), h, drafts);
  }

  // Once a source version stops being the current projection it never is again.
  lemma SupersededForever(h: History, drafts: seq<Draft>, more: seq<Draft>, v: SourceVersion)
    requires IsCurrent(h.ledger, v)
    requires !IsCurrent(RunFrom(HistoryStep, h, drafts).ledger, v)
    ensures !IsCurrent(RunFrom(HistoryStep, h, drafts + more).ledger, v)
  {
    RunsGrow(h, drafts);
    RunsGrow(RunFrom(HistoryStep, h, drafts), more);
    RunConcat(HistoryStep, h, drafts, more);
  }
}
