/** The bounded, replayable event ledger of one showcase run. */
module ShowcaseLedger {
  import opened Prelude

  datatype Kind =
    | SourceChanged | CdcReceived | ProjectionApplied | AgentTool | AgentDecision | HumanApproval
    | TransactionTransition

  datatype Status =
    | Changed | Received | Applied | Started | Completed | Decided | Failed | Compensating | Compensated
    | Requested | Approved | Rejected | Expired

  datatype RunStatus =
    | RunRunning | RunSucceeded | RunFailed | RunCompensating | RunCompensated | RunAwaitingApproval | RunRejected

  datatype Detail = Text(text: string) | Number(n: int) | Fraction(x: real) | Flag(b: bool) | Null

  datatype Identity = Identity(system: string, recordId: string)

  datatype SourceVersion = SourceVersion(system: string, recordId: string, version: nat)
  {
    function Id(): Identity {
      Identity(system, recordId)
    }
  }

  // What a caller of record supplies.
  datatype Draft = Draft(
    kind: Kind, status: Status, timestamp: int, correlationId: string, details: map<string, Detail>,
    source: Option<SourceVersion>)

  datatype ShowcaseEvent = ShowcaseEvent(runId: string, sequence: nat, draft: Draft)

  const MAX_DETAIL_STRING_LENGTH := 160

  const DISPLAY_SAFE_KEYS: set<string> := {
    "action", "adapter", "attempt", "citation_count", "component", "decision", "document_id", "entity_type",
    "error_code", "event_id", "field_count", "expires_in_seconds", "index_alias", "operation", "outcome",
    "reason_code", "replay", "retryable", "state_from", "state_to", "step", "tool_name", "transition", "workflow"}

  predicate SafeChar(c: char) {
    'A' <= c <= 'Z' || 'a' <= c <= 'z' || '0' <= c <= '9' || c in "._:/-"
  }

  predicate DisplaySafe(s: string) {
    0 < |s| <= MAX_DETAIL_STRING_LENGTH && forall i :: 0 <= i < |s| ==> SafeChar(s[i])
  }

  predicate SafeDetails(details: map<string, Detail>) {
    forall k :: k in details ==> k in DISPLAY_SAFE_KEYS && (details[k].Text? ==> DisplaySafe(details[k].text))
  }

  // ShowcaseEvent's constructor.
  predicate Constructible(e: ShowcaseEvent) {
    NonBlank(e.runId) && NonBlank(e.draft.correlationId) && e.sequence > 0 && SafeDetails(e.draft.details)
  }

  datatype LedgerState = LedgerState(
    runId: string, maxEvents: nat, events: seq<ShowcaseEvent>, sequence: nat, status: RunStatus,
    last: Option<int>, latest: map<Identity, nat>, changes: map<SourceVersion, string>,
    received: set<SourceVersion>, projected: set<SourceVersion>)

  function Fresh(runId: string, maxEvents: nat): LedgerState {
    LedgerState(runId, maxEvents, [], 0, RunRunning, None, map[], map[], {}, {})
  }

  // ------------------------------------------------------------ accepting one event

  predicate TimestampOk(s: LedgerState, d: Draft) {
    s.last.None? || s.last.value <= d.timestamp
  }

  predicate SourceOk(s: LedgerState, d: Draft) {
    match d.kind
    case SourceChanged =>
      d.source.Some? && (d.source.value.Id() in s.latest ==> s.latest[d.source.value.Id()] < d.source.value.version)
    case CdcReceived =>
      d.source.Some? && d.source.value in s.changes && s.changes[d.source.value] == d.correlationId
    case ProjectionApplied =>
      && d.source.Some? && d.source.value in s.received
      && d.source.value in s.changes && s.changes[d.source.value] == d.correlationId
    case _ => d.source.Some? ==> d.source.value in s.projected
  }

  predicate Accepts(s: LedgerState, d: Draft) {
    TimestampOk(s, d) && SourceOk(s, d)
  }

  function StatusAfter(current: RunStatus, d: Draft): RunStatus {
    if d.kind.HumanApproval? then
      match d.status
      case Requested => RunAwaitingApproval
      case Approved => RunRunning
      case Rejected => RunRejected
      case Expired => RunFailed
      case _ => current
    else if d.kind.TransactionTransition? then
      match d.status
      case Completed => RunSucceeded
      case Failed => RunFailed
      case Compensating => RunCompensating
      case Compensated => RunCompensated
      case _ => current
    else current
  }

  function Tail<T>(s: seq<T>, n: nat): seq<T> {
    if |s| <= n then s else s[|s| - n..]
  }

  function Appended(s: LedgerState, e: ShowcaseEvent): LedgerState {
    var d := e.draft;
    var s1 := s.(
      events := Tail(s.events + [e], s.maxEvents),
      sequence := e.sequence,
      last := Some(d.timestamp),
      status := StatusAfter(s.status, d));
    if d.source.None? then s1
    else
      var v := d.source.value;
      match d.kind
      case SourceChanged =>
        s1.(latest := s.latest[v.Id() := v.version], changes := s.changes[v := d.correlationId])
      case CdcReceived => s1.(received := s.received + {v})
      case ProjectionApplied => s1.(projected := s.projected + {v})
      case _ => s1
  }

  function EventFor(s: LedgerState, d: Draft): ShowcaseEvent {
    ShowcaseEvent(s.runId, s.sequence + 1, d)
  }

  predicate Recordable(s: LedgerState, d: Draft) {
    Constructible(EventFor(s, d)) && Accepts(s, d)
  }

  // The ledger after a record call; a rejected draft leaves it as it was.
  function Recorded(s: LedgerState, d: Draft): LedgerState {
    if Recordable(s, d) then Appended(s, EventFor(s, d)) else s
  }

  predicate Replayable(s: LedgerState, e: ShowcaseEvent) {
    e.runId == s.runId && e.sequence == s.sequence + 1 && Accepts(s, e.draft)
  }

  function Replay(runId: string, stream: seq<ShowcaseEvent>, maxEvents: nat): Result<LedgerState> {
    if !NonBlank(runId) || maxEvents == 0 then Raise(ValueError)
    else if stream == [] then Ok(Fresh(runId, maxEvents))
    else
      match Replay(runId, stream[..|stream| - 1], maxEvents)
      case Raise(e) => Raise(e)
      case Ok(s) =>
        var e := stream[|stream| - 1];
        if Replayable(s, e) then Ok(Appended(s, e)) else Raise(ValueError)
  }

  function EventsAfter(events: seq<ShowcaseEvent>, cursor: nat): seq<ShowcaseEvent> {
    if events == [] then []
    else (if events[0].sequence > cursor then [events[0]] else []) + EventsAfter(events[1..], cursor)
  }

  lemma ReadOne(found: seq<ShowcaseEvent>, events: seq<ShowcaseEvent>, i: nat, cursor: nat)
    requires i < |events|
    ensures found + EventsAfter(events[i..], cursor)
         == (if events[i].sequence > cursor then found + [events[i]] else found) + EventsAfter(events[i + 1..], cursor)
  {
    assert events[i..][0] == events[i] && events[i..][1..] == events[i + 1..];
    var rest := EventsAfter(events[i + 1..], cursor);
    assert found + ([events[i]] + rest) == found + [events[i]] + rest && [] + rest == rest;
  }

  predicate IsCurrent(s: LedgerState, v: SourceVersion) {
    v.Id() in s.latest && s.latest[v.Id()] == v.version && v in s.projected
  }

  predicate SnapshotValid(runId: string, sequence: nat, events: seq<ShowcaseEvent>) {
    && (forall i :: 0 <= i < |events| ==> events[i].runId == runId)
    && (events != [] ==> events[|events| - 1].sequence <= sequence)
    && (forall i :: 0 <= i < |events| - 1 ==> events[i].sequence < events[i + 1].sequence)
  }

  // ------------------------------------------------------------ the ledger object

  class ShowcaseEventLedger {
    const runId: string
    const maxEvents: nat
    var events: seq<ShowcaseEvent>
    var sequence: nat
    var status: RunStatus
    var lastTimestamp: Option<int>
    var latest: map<Identity, nat>
    var changes: map<SourceVersion, string>
    var received: set<SourceVersion>
    var projected: set<SourceVersion>

    function State(): LedgerState
      reads this
    {
      LedgerState(runId, maxEvents, events, sequence, status, lastTimestamp, latest, changes, received, projected)
    }

    constructor (runId: string, maxEvents: nat)
      requires NonBlank(runId) && maxEvents > 0
      ensures State() == Fresh(runId, maxEvents)
    {
      this.runId, this.maxEvents := runId, maxEvents;
      events, sequence, status, lastTimestamp := [], 0, RunRunning, None;
      latest, changes, received, projected := map[], map[], {}, {};
    }

    method Append(e: ShowcaseEvent)
      requires |events| <= maxEvents
      modifies this
      ensures State() == Appended(old(State()), e)
    {
      var d := e.draft;
      sequence := e.sequence;
      lastTimestamp := Some(d.timestamp);
      status := StatusAfter(status, d);
      if d.source.Some? {
        var v := d.source.value;
        if d.kind.SourceChanged? {
          latest := latest[v.Id() := v.version];
          changes := changes[v := d.correlationId];
        } else if d.kind.CdcReceived? {
          received := received + {v};
        } else if d.kind.ProjectionApplied? {
          projected := projected + {v};
        }
      }
      events := events + [e];
      if |events| > maxEvents {
        events := events[1..];
      }
    }

    method Record(d: Draft) returns (r: Result<ShowcaseEvent>)
      requires |events| <= maxEvents
      modifies this
      ensures State() == Recorded(old(State()), d)
      ensures r == if Recordable(old(State()), d) then Ok(EventFor(old(State()), d)) else Raise(ValueError)
      ensures |events| <= maxEvents
    {
      var e := ShowcaseEvent(runId, sequence + 1, d);
      if !Constructible(e) || !Accepts(State(), d) {
        return Raise(ValueError);
      }
      Append(e);
      return Ok(e);
    }

    method ReadAfter(cursor: int) returns (r: Result<seq<ShowcaseEvent>>)
      ensures r == if cursor < 0 then Raise(ValueError) else Ok(EventsAfter(events, cursor))
    {
      if cursor < 0 {
        return Raise(ValueError);
      }
      var found, i := [], 0;
      while i < |events|
        invariant 0 <= i <= |events|
        invariant EventsAfter(events, cursor) == found + EventsAfter(events[i..], cursor)
      {
        ReadOne(found, events, i, cursor);
        if events[i].sequence > cursor {
          found := found + [events[i]];
        }
        i := i + 1;
      }
      assert events[i..] == [] && found + [] == found;
      return Ok(found);
    }
  }

  method ReplayLedger(runId: string, stream: seq<ShowcaseEvent>, maxEvents: nat)
    returns (r: Result<ShowcaseEventLedger>)
    ensures r.Ok? <==> Replay(runId, stream, maxEvents).Ok?
    ensures r.Ok? ==> fresh(r.value) && r.value.State() == Replay(runId, stream, maxEvents).value
  {
    if !NonBlank(runId) || maxEvents == 0 {
      return Raise(ValueError);
    }
    var ledger := new ShowcaseEventLedger(runId, maxEvents);
    var i := 0;
    while i < |stream|
      invariant 0 <= i <= |stream| && fresh(ledger) && ledger.runId == runId && ledger.maxEvents == maxEvents
      invariant Replay(runId, stream[..i], maxEvents) == Ok(ledger.State())
      invariant |ledger.events| <= maxEvents
    {
      var e := stream[i];
      ReplayNext(runId, stream, maxEvents, i);
      if e.runId != ledger.runId || e.sequence != ledger.sequence + 1 || !Accepts(ledger.State(), e.draft) {
        ReplayStops(runId, stream, maxEvents, i + 1);
        return Raise(ValueError);
      }
      ledger.Append(e);
      i := i + 1;
    }
    assert stream[..i] == stream;
    return Ok(ledger);
  }

  lemma ReplayNext(runId: string, stream: seq<ShowcaseEvent>, maxEvents: nat, i: nat)
    requires i < |stream| && Replay(runId, stream[..i], maxEvents).Ok?
    ensures var s, e := Replay(runId, stream[..i], maxEvents).value, stream[i];
      Replay(runId, stream[..i + 1], maxEvents)
      == if Replayable(s, e) then Ok(Appended(s, e)) else Raise(ValueError)
  {
    assert stream[..i + 1][..i] == stream[..i];
  }

  // A stream whose prefix is refused is refused.
  lemma {:induction false} ReplayStops(runId: string, stream: seq<ShowcaseEvent>, maxEvents: nat, n: nat)
    requires n <= |stream| && Replay(runId, stream[..n], maxEvents).Raise?
    ensures Replay(runId, stream, maxEvents).Raise?
  {
    if n == |stream| {
      assert stream[..n] == stream;
    } else {
      assert stream[..|stream| - 1][..n] == stream[..n];
      ReplayStops(runId, stream[..|stream| - 1], maxEvents, n);
    }
  }
}
