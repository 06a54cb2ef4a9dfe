/** One delivery's life on its ledger: the CDC chain, the gated proposal, the approval, the saga. */
module ShowcaseSaga {
  import opened Prelude
  import opened StableIds
  import opened ShowcaseLedger

  datatype Bundle = Bundle(
    runId: string, correlationId: string, source: SourceVersion, eventId: string, documentId: string,
    cdcOccurredAt: int, projectionAppliedAt: int)
  {
    function Delivery(): string {
      DeliveryId(correlationId, source.system, source.recordId, source.version)
    }
  }

  // The constructors of the bundle and of its source version.
  predicate ValidBundle(b: Bundle) {
    && NonBlank(b.runId) && NonBlank(b.correlationId) && NonBlank(b.eventId) && NonBlank(b.documentId)
    && NonBlank(b.source.system) && NonBlank(b.source.recordId)
    && b.cdcOccurredAt <= b.projectionAppliedAt
  }

  // Record drafts in order until one raises.
  function RecordAll(s: LedgerState, drafts: seq<Draft>): (LedgerState, bool)
    decreases |drafts|
  {
    if drafts == [] then (s, true)
    else if Recordable(s, drafts[0]) then RecordAll(Recorded(s, drafts[0]), drafts[1..])
    else (s, false)
  }

  lemma RecordTwo(s: LedgerState, a: Draft, b: Draft)
    ensures RecordAll(s, [a, b]) ==
      if !Recordable(s, a) then (s, false)
      else if !Recordable(Recorded(s, a), b) then (Recorded(s, a), false)
      else (Recorded(Recorded(s, a), b), true)
  {
    assert [a, b][1..] == [b] && [b][1..] == [];
    var s1 := Recorded(s, a);
    assert RecordAll(s1, [b]) == if Recordable(s1, b) then RecordAll(Recorded(s1, b), []) else (s1, false);
  }

  lemma RecordThree(s: LedgerState, a: Draft, b: Draft, c: Draft)
    ensures RecordAll(s, [a, b, c]) == if Recordable(s, a) then RecordAll(Recorded(s, a), [b, c]) else (s, false)
    ensures RecordAll(Recorded(s, a), [b, c]) ==
      if !Recordable(Recorded(s, a), b) then (Recorded(s, a), false)
      else if !Recordable(Recorded(Recorded(s, a), b), c) then (Recorded(Recorded(s, a), b), false)
      else (Recorded(Recorded(Recorded(s, a), b), c), true)
  {
    assert [a, b, c][1..] == [b, c];
    RecordTwo(Recorded(s, a), b, c);
  }

  lemma {:induction false} RecordAllConcat(s: LedgerState, first: seq<Draft>, rest: seq<Draft>)
    ensures RecordAll(s, first + rest) ==
      var (s', done) := RecordAll(s, first); if done then RecordAll(s', rest) else (s', false)
    decreases |first|
  {
    if first == [] {
      assert first + rest == rest;
    } else if Recordable(s, first[0]) {
      assert (first + rest)[1..] == first[1..] + rest;
      RecordAllConcat(Recorded(s, first[0]), first[1..], rest);
    }
  }

  // ------------------------------------------------------------ the CDC chain

  function SourceDraft(b: Bundle): Draft {
    Draft(SourceChanged, Changed, b.cdcOccurredAt, b.correlationId,
          map["operation" := Text("update"), "event_id" := Text(b.eventId)], Some(b.source))
  }

  function ReceiptDraft(b: Bundle): Draft {
    Draft(CdcReceived, Received, b.cdcOccurredAt, b.correlationId,
          map["event_id" := Text(b.eventId), "replay" := Flag(false)], Some(b.source))
  }

  function ProjectionDraft(b: Bundle): Draft {
    Draft(ProjectionApplied, Applied, b.projectionAppliedAt, b.correlationId,
          map["document_id" := Text(b.documentId), "index_alias" := Text("context-institutional-read")], Some(b.source))
  }

  function ChainDrafts(b: Bundle): seq<Draft> {
    [SourceDraft(b), ReceiptDraft(b), ProjectionDraft(b)]
  }

  function DeliverChain(s: LedgerState, b: Bundle): (LedgerState, bool) {
    RecordAll(s, ChainDrafts(b))
  }

  // ------------------------------------------------------------ facts and proposal

  datatype Fact = Fact(
    availableToPromise: Option<int>, carrierCutoffOpen: Option<bool>, addressHold: Option<bool>,
    riskHold: Option<bool>, ageSeconds: Option<real>)

  // One retrieval result; absent or mistyped fields are None.
  datatype RetrievedResult = RetrievedResult(
    kind: Option<string>, sku: Option<string>, sourceVersion: Option<int>,
    citedSystem: Option<string>, citedRecord: Option<string>, fact: Fact)

  const MAX_FACT_AGE_SECONDS := 300.0
  const APPROVAL_TTL := 300_000_000 // microseconds, the unit of every timestamp

  predicate MatchesSource(r: RetrievedResult, b: Bundle) {
    && r.kind == Some("fulfillment_promise.v1")
    && r.sku == Some(b.source.recordId)
    && r.sourceVersion == Some(b.source.version)
    && r.citedSystem == Some(b.source.system)
    && r.citedRecord == Some(b.source.recordId)
  }

  function MatchingFacts(results: seq<RetrievedResult>, b: Bundle): seq<Fact> {
    if results == [] then []
    else (if MatchesSource(results[0], b) then [results[0].fact] else []) + MatchingFacts(results[1..], b)
  }

  predicate Reservable(f: Fact) {
    && f.availableToPromise.Some? && f.availableToPromise.value >= 1
    && f.carrierCutoffOpen == Some(true) && f.addressHold == Some(false) && f.riskHold == Some(false)
    && f.ageSeconds.Some? && f.ageSeconds.value <= MAX_FACT_AGE_SECONDS
  }

  predicate CanReserve(facts: seq<Fact>) {
    |facts| == 1 && Reservable(facts[0])
  }

  // A proposer's advice; it carries no authority.
  datatype Advice = Advice(reserve: bool, reasonCode: string, toolsUsed: seq<string>)

  // A checkpoint waiting for a person; facts is what the gate saw when it let the proposal through.
  datatype Pending = Pending(bundle: Bundle, expiresAt: int, facts: seq<Fact>)

  function ToolDrafts(b: Bundle, tools: seq<string>, citations: nat): seq<Draft> {
    if tools == [] then []
    else
      [Draft(AgentTool, Completed, b.projectionAppliedAt, b.correlationId,
             map["tool_name" := Text(tools[0]), "citation_count" := Number(citations)], Some(b.source))]
      + ToolDrafts(b, tools[1..], citations)
  }

  function DecisionDraft(b: Bundle, decision: string, reasonCode: string): Draft {
    Draft(AgentDecision, Decided, b.projectionAppliedAt, b.correlationId,
          map["decision" := Text(decision), "reason_code" := Text(reasonCode),
              "workflow" := Text("fulfillment-promise")], Some(b.source))
  }

  function TransitionDraft(b: Bundle, status: Status, transition: string, timestamp: int): Draft {
    Draft(TransactionTransition, status, timestamp, b.correlationId,
          map["transition" := Text(transition), "workflow" := Text("fulfillment-promise")], Some(b.source))
  }

  function BlockDrafts(b: Bundle, reasonCode: string): seq<Draft> {
    [DecisionDraft(b, "decline", reasonCode), TransitionDraft(b, Failed, "blocked", b.projectionAppliedAt)]
  }

  function RequestedDraft(b: Bundle): Draft {
    Draft(HumanApproval, Requested, b.projectionAppliedAt, b.correlationId,
          map["action" := Text("approve_or_reject"), "expires_in_seconds" := Number(APPROVAL_TTL / 1_000_000),
              "workflow" := Text("fulfillment-promise")], Some(b.source))
  }

  // From the proposer's answer to the end of process: the drafts to record, and whether a
  // checkpoint is opened once they all are.
  function AdviceDrafts(b: Bundle, facts: seq<Fact>, advice: Option<Advice>): (seq<Draft>, bool) {
    match advice
    case None => (BlockDrafts(b, "agent_unavailable"), false)
    case Some(a) =>
      var tools := ToolDrafts(b, a.toolsUsed, |facts|);
      if a.reserve && CanReserve(facts) then
        (tools + [DecisionDraft(b, "reserve", a.reasonCode), RequestedDraft(b)], true)
      else (tools + BlockDrafts(b, a.reasonCode), false)
  }

  function AfterAdvice(s: LedgerState, b: Bundle, facts: seq<Fact>, advice: Option<Advice>, clock: int)
    : (LedgerState, Option<Pending>)
  {
    var (drafts, opens) := AdviceDrafts(b, facts, advice);
    var (s', done) := RecordAll(s, drafts);
    (s', if done && opens then Some(Pending(b, clock + APPROVAL_TTL, facts)) else None)
  }

  // ------------------------------------------------------------ approval and reservation

  datatype Action = Approve | Reject

  datatype Flow = Returned | Raised | CallInventory | CallCarrier | CallRelease

  function ApprovalDraft(b: Bundle, status: Status, timestamp: int, outcome: string): Draft {
    Draft(HumanApproval, status, timestamp, b.correlationId,
          map["action" := Text("approve_or_reject"), "outcome" := Text(outcome),
              "workflow" := Text("fulfillment-promise")], Some(b.source))
  }

  function ResolveTime(p: Pending, clock: int): int {
    if clock < p.bundle.projectionAppliedAt then p.bundle.projectionAppliedAt else clock
  }

  function Closing(s: LedgerState, d: Draft): (LedgerState, Flow) {
    if Recordable(s, d) then (Recorded(s, d), Returned) else (s, Raised)
  }

  // resolve up to its first tool call.
  function ResolveStart(s: LedgerState, p: Pending, action: Action, clock: int): (LedgerState, Flow) {
    var now, b := ResolveTime(p, clock), p.bundle;
    if !IsCurrent(s, b.source) then Closing(s, ApprovalDraft(b, Expired, now, "source_superseded"))
    else if now > p.expiresAt then Closing(s, ApprovalDraft(b, Expired, now, "approval_expired"))
    else if action.Reject? then Closing(s, ApprovalDraft(b, Rejected, now, "human_rejected"))
    else
      var (s', done) := RecordAll(s, StartDrafts(b, now));
      (s', if done then CallInventory else Raised)
  }

  function Compensate(s: LedgerState, b: Bundle, now: int): (LedgerState, Flow) {
    var d := TransitionDraft(b, Compensating, "release_inventory", now);
    if Recordable(s, d) then (Recorded(s, d), CallRelease) else (s, Raised)
  }

  function AfterInventory(s: LedgerState, b: Bundle, now: int, ok: bool): (LedgerState, Flow) {
    var completed := TransitionDraft(b, Completed, "reserve_inventory", now);
    if !ok || !Recordable(s, completed) then (s, Raised)
    else CarrierStart(Recorded(s, completed), b, now)
  }

  // A carrier step that cannot even be recorded is compensated like one that failed.
  function CarrierStart(s: LedgerState, b: Bundle, now: int): (LedgerState, Flow) {
    var started := TransitionDraft(b, Started, "reserve_carrier", now);
    if Recordable(s, started) then (Recorded(s, started), CallCarrier) else Compensate(s, b, now)
  }

  function AfterCarrier(s: LedgerState, b: Bundle, now: int, ok: bool): (LedgerState, Flow) {
    if ok then Closing(s, TransitionDraft(b, Completed, "reserve_carrier", now)) else Compensate(s, b, now)
  }

  function AfterRelease(s: LedgerState, b: Bundle, now: int, ok: bool): (LedgerState, Flow) {
    Closing(s, TransitionDraft(b, if ok then Compensated else Failed, "release_inventory", now))
  }

  // ------------------------------------------------------------ resolve without interference

  datatype ToolCall = ReserveInventory | ReserveCarrier | ReleaseInventory

  // Whether each tool call, if made, succeeds.
  datatype Outcomes = Outcomes(inventory: bool, carrier: bool, release: bool)

  datatype SagaResult = SagaResult(ledger: LedgerState, flow: Flow, calls: seq<ToolCall>)

  function FromRelease(r: (LedgerState, Flow), b: Bundle, now: int, o: Outcomes): SagaResult {
    if r.1.CallRelease? then
      var end := AfterRelease(r.0, b, now, o.release);
      SagaResult(end.0, end.1, [ReleaseInventory])
    else SagaResult(r.0, r.1, [])
  }

  function FromCarrier(r: (LedgerState, Flow), b: Bundle, now: int, o: Outcomes): SagaResult {
    if r.1.CallCarrier? then
      var rest := FromRelease(AfterCarrier(r.0, b, now, o.carrier), b, now, o);
      rest.(calls := [ReserveCarrier] + rest.calls)
    else FromRelease(r, b, now, o)
  }

  // _reserve, run to its end.
  function Reservation(s: LedgerState, b: Bundle, now: int, o: Outcomes): SagaResult {
    var started := TransitionDraft(b, Started, "reserve_inventory", now);
    if Recordable(s, started) then
      var rest := FromCarrier(AfterInventory(Recorded(s, started), b, now, o.inventory), b, now, o);
      rest.(calls := [ReserveInventory] + rest.calls)
    else SagaResult(s, Raised, [])
  }

  function Saga(s: LedgerState, p: Pending, action: Action, clock: int, o: Outcomes): SagaResult {
    var now, b := ResolveTime(p, clock), p.bundle;
    var r := ResolveStart(s, p, action, clock);
    if r.1.CallInventory? then
      var rest := FromCarrier(AfterInventory(r.0, b, now, o.inventory), b, now, o);
      rest.(calls := [ReserveInventory] + rest.calls)
    else SagaResult(r.0, r.1, [])
  }

  // Facts about fixed drafts: once one draft of a bundle was recorded at some moment with its
  // source projected, every later transition of that bundle at the same moment is recordable.
  predicate Settled(s: LedgerState, b: Bundle, now: int) {
    NonBlank(s.runId) && NonBlank(b.correlationId) && b.source in s.projected && s.last == Some(now)
  }

  lemma WorkflowIsSafe()
    ensures DisplaySafe("fulfillment-promise") && DisplaySafe("reserve_inventory") && DisplaySafe("reserve_carrier")
    ensures DisplaySafe("release_inventory") && DisplaySafe("blocked")
    ensures DisplaySafe("update") && DisplaySafe("context-institutional-read")
  {
    StepsAreSafe();
  }

  lemma StepsAreSafe()
    ensures DisplaySafe("reserve_inventory") && DisplaySafe("reserve_carrier") && DisplaySafe("release_inventory")
  {
  }

  lemma TransitionRecordable(s: LedgerState, b: Bundle, status: Status, transition: string, now: int)
    requires Settled(s, b, now) && DisplaySafe(transition)
    ensures Recordable(s, TransitionDraft(b, status, transition, now))
    ensures Settled(Recorded(s, TransitionDraft(b, status, transition, now)), b, now)
  {
    WorkflowIsSafe();
    var d := TransitionDraft(b, status, transition, now);
    assert "transition" in DISPLAY_SAFE_KEYS && "workflow" in DISPLAY_SAFE_KEYS;
    assert SafeDetails(d.details);
  }

  // The ledger takes an event of the bundle stamped now.
  predicate Writable(s: LedgerState, b: Bundle, now: int) {
    && NonBlank(s.runId) && NonBlank(b.correlationId) && b.source in s.projected
    && (s.last.Some? ==> s.last.value <= now)
  }

  // An event that is neither part of the source chain nor about another source.
  predicate OwnDraft(d: Draft, b: Bundle, now: int) {
    && !d.kind.SourceChanged? && !d.kind.CdcReceived? && !d.kind.ProjectionApplied?
    && d.source == Some(b.source) && d.correlationId == b.correlationId && d.timestamp == now
  }

  lemma OwnRecordable(s: LedgerState, b: Bundle, now: int, d: Draft)
    requires OwnDraft(d, b, now)
    ensures Recordable(s, d) <==> Writable(s, b, now) && SafeDetails(d.details)
    ensures Recordable(s, d) ==> Writable(Recorded(s, d), b, now) && Settled(Recorded(s, d), b, now)
    ensures Recordable(s, d) ==> Recorded(s, d).status == StatusAfter(s.status, d)
  {
  }

  lemma OutcomeWordsAreSafe()
    ensures DisplaySafe("source_superseded") && DisplaySafe("approval_expired")
    ensures DisplaySafe("human_rejected") && DisplaySafe("human_approved")
  {
  }

  lemma ActionIsSafe()
    ensures DisplaySafe("approve_or_reject")
  {
  }

  lemma ApprovalIsSafe(b: Bundle, status: Status, now: int, outcome: string)
    ensures SafeDetails(ApprovalDraft(b, status, now, outcome).details) <==> DisplaySafe(outcome)
  {
    ActionIsSafe();
    WorkflowIsSafe();
    var d := ApprovalDraft(b, status, now, outcome);
    assert d.details["outcome"] == Text(outcome) && "outcome" in d.details;
    assert "action" in DISPLAY_SAFE_KEYS && "outcome" in DISPLAY_SAFE_KEYS && "workflow" in DISPLAY_SAFE_KEYS;
  }

  lemma ApprovalSettles(s: LedgerState, p: Pending, now: int)
    requires IsCurrent(s, p.bundle.source)
    requires Recordable(s, ApprovalDraft(p.bundle, Approved, now, "human_approved"))
    ensures Settled(Recorded(s, ApprovalDraft(p.bundle, Approved, now, "human_approved")), p.bundle, now)
  {
  }

  function StartDrafts(b: Bundle, now: int): seq<Draft> {
    [ApprovalDraft(b, Approved, now, "human_approved"), TransitionDraft(b, Started, "reserve_inventory", now)]
  }

  // An approval that can be recorded at all starts the reservation; otherwise nothing is recorded.
  lemma ApproveStarts(s: LedgerState, p: Pending, now: int)
    requires IsCurrent(s, p.bundle.source)
    ensures
      var (s', done) := RecordAll(s, StartDrafts(p.bundle, now));
      && (done <==> Writable(s, p.bundle, now))
      && if done then Settled(s', p.bundle, now) && s'.status == RunRunning else s' == s
  {
    var approved := ApprovalDraft(p.bundle, Approved, now, "human_approved");
    var started := TransitionDraft(p.bundle, Started, "reserve_inventory", now);
    RecordTwo(s, approved, started);
    OutcomeWordsAreSafe();
    ApprovalIsSafe(p.bundle, Approved, now, "human_approved");
    OwnRecordable(s, p.bundle, now, approved);
    if Recordable(s, approved) {
      ApprovalSettles(s, p, now);
      WorkflowIsSafe();
      var s1 := Recorded(s, approved);
      TransitionRecordable(s1, p.bundle, Started, "reserve_inventory", now);
      assert s1.status == RunRunning;
      assert Recorded(s1, started).status == StatusAfter(s1.status, started);
    }
  }

  lemma ClosingOutcome(s: LedgerState, b: Bundle, status: Status, now: int, outcome: string)
    requires (status.Rejected? || status.Expired?) && DisplaySafe(outcome)
    ensures
      var r := Closing(s, ApprovalDraft(b, status, now, outcome));
      if Writable(s, b, now) then r.1 == Returned && r.0.status == if status.Rejected? then RunRejected else RunFailed
      else r == (s, Raised)
  {
    ApprovalIsSafe(b, status, now, outcome);
    OwnRecordable(s, b, now, ApprovalDraft(b, status, now, outcome));
  }

  // What resolve does before any tool call, for every state it may find: it raises exactly when the
  // ledger cannot take an event of the bundle at that moment.
  lemma StartOutcomes(s: LedgerState, p: Pending, action: Action, clock: int)
    ensures
      var r, now := ResolveStart(s, p, action, clock), ResolveTime(p, clock);
      var inTime := IsCurrent(s, p.bundle.source) && now <= p.expiresAt;
      match r.1
      case CallInventory => action.Approve? && inTime && Settled(r.0, p.bundle, now) && r.0.status == RunRunning
      case Returned => !(inTime && action.Approve?) && r.0.status == if inTime then RunRejected else RunFailed
      case Raised => r.0 == s
      case _ => false
    ensures ResolveStart(s, p, action, clock).1.Raised? <==> !Writable(s, p.bundle, ResolveTime(p, clock))
  {
    var now, b := ResolveTime(p, clock), p.bundle;
    OutcomeWordsAreSafe();
    ClosingOutcome(s, b, Expired, now, "source_superseded");
    ClosingOutcome(s, b, Expired, now, "approval_expired");
    ClosingOutcome(s, b, Rejected, now, "human_rejected");
    if IsCurrent(s, b.source) {
      ApproveStarts(s, p, now);
    }
  }

  lemma InventoryOutcomes(s: LedgerState, b: Bundle, now: int, ok: bool)
    requires Settled(s, b, now)
    ensures
      var r := AfterInventory(s, b, now, ok);
      if ok then r.1 == CallCarrier && Settled(r.0, b, now) else r == (s, Raised)
  {
    WorkflowIsSafe();
    TransitionRecordable(s, b, Completed, "reserve_inventory", now);
    var held := Recorded(s, TransitionDraft(b, Completed, "reserve_inventory", now));
    TransitionRecordable(held, b, Started, "reserve_carrier", now);
  }

  lemma CarrierOutcomes(s: LedgerState, b: Bundle, now: int, ok: bool)
    requires Settled(s, b, now)
    ensures
      var r := AfterCarrier(s, b, now, ok);
      if ok then r.1 == Returned && r.0.status == RunSucceeded
      else r.1 == CallRelease && Settled(r.0, b, now) && r.0.status == RunCompensating
  {
    WorkflowIsSafe();
    TransitionRecordable(s, b, Completed, "reserve_carrier", now);
    TransitionRecordable(s, b, Compensating, "release_inventory", now);
  }

  lemma ReleaseOutcomes(s: LedgerState, b: Bundle, now: int, ok: bool)
    requires Settled(s, b, now)
    ensures
      var r := AfterRelease(s, b, now, ok);
      r.1 == Returned && r.0.status == if ok then RunCompensated else RunFailed
  {
    WorkflowIsSafe();
    TransitionRecordable(s, b, Compensated, "release_inventory", now);
    TransitionRecordable(s, b, Failed, "release_inventory", now);
  }

  // The reservation from the inventory answer on.
  lemma ReservationOutcomes(s: LedgerState, b: Bundle, now: int, o: Outcomes)
    requires Settled(s, b, now) && s.status == RunRunning
    ensures
      var r := FromCarrier(AfterInventory(s, b, now, o.inventory), b, now, o);
      if !o.inventory then r.flow == Raised && r.calls == [] && r.ledger.status == RunRunning
      else
        && r.flow == Returned
        && r.calls == (if o.carrier then [ReserveCarrier] else [ReserveCarrier, ReleaseInventory])
        && r.ledger.status == (if o.carrier then RunSucceeded else if o.release then RunCompensated else RunFailed)
  {
    InventoryOutcomes(s, b, now, o.inventory);
    if o.inventory {
      var held := AfterInventory(s, b, now, true);
      CarrierOutcomes(held.0, b, now, o.carrier);
      if !o.carrier {
        ReleaseOutcomes(AfterCarrier(held.0, b, now, false).0, b, now, o.release);
      }
    }
  }

  // Every outcome of resolve on an undisturbed ledger, for every state it may find and every
  // success or failure of the three tools.
  lemma SagaOutcomes(s: LedgerState, p: Pending, action: Action, clock: int, o: Outcomes)
    ensures
      var r := Saga(s, p, action, clock, o);
      var inTime := IsCurrent(s, p.bundle.source) && ResolveTime(p, clock) <= p.expiresAt;
      match r.flow
      case Returned =>
        || (r.calls == [] && !(inTime && action.Approve?)
            && r.ledger.status == if inTime then RunRejected else RunFailed)
        || (r.calls == [ReserveInventory, ReserveCarrier] && inTime && action.Approve?
            && o.inventory && o.carrier && r.ledger.status == RunSucceeded)
        || (r.calls == [ReserveInventory, ReserveCarrier, ReleaseInventory] && inTime && action.Approve?
            && o.inventory && !o.carrier && r.ledger.status == if o.release then RunCompensated else RunFailed)
      case Raised =>
        || (r.calls == [] && r.ledger == s && !Writable(s, p.bundle, ResolveTime(p, clock)))
        || (r.calls == [ReserveInventory] && inTime && action.Approve? && !o.inventory
            && r.ledger.status == RunRunning)
      case _ => false
  {
    var now, b := ResolveTime(p, clock), p.bundle;
    var start := ResolveStart(s, p, action, clock);
    StartOutcomes(s, p, action, clock);
    if start.1.CallInventory? {
      ReservationOutcomes(start.0, b, now, o);
    }
  }

  // ------------------------------------------------------------ all-or-nothing delivery

  lemma ChainSecond(s: LedgerState, b: Bundle)
    requires Recordable(s, SourceDraft(b))
    ensures Recordable(Recorded(s, SourceDraft(b)), ReceiptDraft(b))
  {
    var d, r := SourceDraft(b), ReceiptDraft(b);
    assert d.details["event_id"] == Text(b.eventId) && "event_id" in d.details;
    assert DisplaySafe(b.eventId);
    assert "event_id" in DISPLAY_SAFE_KEYS && "replay" in DISPLAY_SAFE_KEYS;
    assert SafeDetails(r.details);
  }

  lemma ProjectionIsSafe(b: Bundle)
    ensures SafeDetails(ProjectionDraft(b).details) <==> DisplaySafe(b.documentId)
  {
    WorkflowIsSafe();
    var d := ProjectionDraft(b);
    assert "document_id" in DISPLAY_SAFE_KEYS && "index_alias" in DISPLAY_SAFE_KEYS;
    assert d.details["document_id"] == Text(b.documentId) && "document_id" in d.details;
  }

  lemma ChainThird(s: LedgerState, b: Bundle)
    requires ValidBundle(b) && Recordable(s, SourceDraft(b))
    ensures Recordable(Recorded(Recorded(s, SourceDraft(b)), ReceiptDraft(b)), ProjectionDraft(b))
       <==> DisplaySafe(b.documentId)
  {
    ChainSecond(s, b);
    ProjectionIsSafe(b);
  }

  // A valid bundle is delivered whole or not at all exactly when its first event is refused or its
  // document id is display-safe; otherwise two of the three events are left behind.
  lemma DeliveryIsAllOrNothing(s: LedgerState, b: Bundle)
    requires ValidBundle(b)
    ensures
      var (s', done) := DeliverChain(s, b);
      && (done <==> Recordable(s, SourceDraft(b)) && DisplaySafe(b.documentId))
      && (done ==> s'.sequence == s.sequence + 3 && IsCurrent(s', b.source))
      && ((done || s' == s) <==> (DisplaySafe(b.documentId) || !Recordable(s, SourceDraft(b))))
  {
    var d1, d2, d3 := SourceDraft(b), ReceiptDraft(b), ProjectionDraft(b);
    var s1 := Recorded(s, d1);
    RecordThree(s, d1, d2, d3);
    if Recordable(s, d1) {
      ChainSecond(s, b);
      ChainThird(s, b);
      ChainEffect(s, b);
    }
  }

  lemma ChainEffect(s: LedgerState, b: Bundle)
    requires Recordable(s, SourceDraft(b)) && Recordable(Recorded(s, SourceDraft(b)), ReceiptDraft(b))
    ensures
      var s2 := Recorded(Recorded(s, SourceDraft(b)), ReceiptDraft(b));
      && s2.sequence == s.sequence + 2
      && (Recordable(s2, ProjectionDraft(b)) ==>
            var s3 := Recorded(s2, ProjectionDraft(b));
            s3.sequence == s.sequence + 3 && IsCurrent(s3, b.source))
  {
    var s1 := Recorded(s, SourceDraft(b));
    assert s1.latest == s.latest[b.source.Id() := b.source.version] && s1.sequence == s.sequence + 1;
    var s2 := Recorded(s1, ReceiptDraft(b));
    assert s2.latest == s1.latest && s2.sequence == s1.sequence + 1;
  }

  lemma SourceIsSafe(b: Bundle)
    ensures SafeDetails(SourceDraft(b).details) <==> DisplaySafe(b.eventId)
  {
    WorkflowIsSafe();
    var d := SourceDraft(b);
    assert "operation" in DISPLAY_SAFE_KEYS && "event_id" in DISPLAY_SAFE_KEYS;
    assert d.details["event_id"] == Text(b.eventId) && "event_id" in d.details;
  }

  // A new run accepts the first event of any valid bundle with a display-safe event id.
  lemma FreshAccepts(b: Bundle, maxEvents: nat)
    requires ValidBundle(b) && DisplaySafe(b.eventId)
    ensures Recordable(Fresh(b.runId, maxEvents), SourceDraft(b))
  {
    SourceIsSafe(b);
  }

  // So every valid bundle with a display-safe event id and a document id that is not leaves two of
  // its three events on a new run, and is not delivered.
  lemma PartialDelivery(b: Bundle, maxEvents: nat)
    requires ValidBundle(b) && DisplaySafe(b.eventId) && !DisplaySafe(b.documentId)
    ensures var (s', done) := DeliverChain(Fresh(b.runId, maxEvents), b); !done && s'.sequence == 2
  {
    var s := Fresh(b.runId, maxEvents);
    FreshAccepts(b, maxEvents);
    DeliveryIsAllOrNothing(s, b);
    RecordThree(s, SourceDraft(b), ReceiptDraft(b), ProjectionDraft(b));
    ChainSecond(s, b);
    ChainThird(s, b);
    ChainEffect(s, b);
  }

  lemma PartialDeliveryExists()
    ensures var b := Bundle("r", "c", SourceVersion("s", "x", 1), "e", "a b", 0, 0);
      var (s', done) := DeliverChain(Fresh("r", 250), b);
      ValidBundle(b) && !done && s'.sequence == 2
  {
    var b := Bundle("r", "c", SourceVersion("s", "x", 1), "e", "a b", 0, 0);
    assert !IsSpace("r"[0]) && !IsSpace("c"[0]) && !IsSpace("s"[0]) && !IsSpace("x"[0]) && !IsSpace("e"[0]);
    assert !IsSpace("a b"[0]) && !SafeChar("a b"[1]);
    PartialDelivery(b, 250);
  }
}
