/** A run that reaches a reservation, and its continuation that strands it. */
module ShowcaseRuns {
  import opened Prelude
  import opened StableIds
  import opened ShowcaseLedger
  import opened ShowcaseSaga
  import opened ShowcaseRegistry
  import opened ShowcaseHoldings

  // ------------------------------------------------------------ what the ledger accepts on the way

  // The bundle's source is current, and the last event was recorded at this moment.
  predicate Current(s: LedgerState, b: Bundle, now: int) {
    Settled(s, b, now) && IsCurrent(s, b.source)
  }

  predicate Displayable(b: Bundle) {
    ValidBundle(b) && DisplaySafe(b.eventId) && DisplaySafe(b.documentId)
  }

  // What each event of the chain leaves behind.
  lemma SourceEffects(s: LedgerState, b: Bundle)
    requires Recordable(s, SourceDraft(b))
    ensures var s1 := Recorded(s, SourceDraft(b));
      s1.runId == s.runId && s1.latest == s.latest[b.source.Id() := b.source.version]
  {
  }

  lemma ReceiptEffects(s: LedgerState, b: Bundle)
    requires Recordable(s, ReceiptDraft(b))
    ensures var s' := Recorded(s, ReceiptDraft(b)); s'.runId == s.runId && s'.latest == s.latest
  {
  }

  lemma ProjectionEffects(s: LedgerState, b: Bundle)
    requires Recordable(s, ProjectionDraft(b))
    ensures var s' := Recorded(s, ProjectionDraft(b));
      && s'.runId == s.runId && s'.latest == s.latest && s'.last == Some(b.projectionAppliedAt)
      && b.source in s'.projected
  {
  }

  lemma ChainLeavesCurrent(b: Bundle)
    requires Displayable(b)
    ensures var (s, done) := DeliverChain(Fresh(b.runId, MAX_EVENTS), b);
      && done && Current(s, b, b.projectionAppliedAt)
      && s.latest == map[b.source.Id() := b.source.version]
  {
    var s := Fresh(b.runId, MAX_EVENTS);
    FreshAccepts(b, MAX_EVENTS);
    RecordThree(s, SourceDraft(b), ReceiptDraft(b), ProjectionDraft(b));
    ChainSecond(s, b);
    ChainThird(s, b);
    var s1 := Recorded(s, SourceDraft(b));
    var s2 := Recorded(s1, ReceiptDraft(b));
    SourceEffects(s, b);
    ReceiptEffects(s1, b);
    ProjectionEffects(s2, b);
  }

  lemma OwnDraftKeepsCurrent(s: LedgerState, b: Bundle, now: int, d: Draft)
    requires Current(s, b, now) && OwnDraft(d, b, now) && SafeDetails(d.details)
    ensures Recordable(s, d) && Current(Recorded(s, d), b, now) && Recorded(s, d).latest == s.latest
  {
  }

  lemma WordsAreSafe()
    ensures DisplaySafe("reserve") && DisplaySafe("ok") && DisplaySafe("approve_or_reject")
    ensures DisplaySafe("human_approved") && DisplaySafe("fulfillment-promise") && DisplaySafe("reserve_inventory")
  {
    WorkflowIsSafe();
  }

  lemma ProposalDraftsAreSafe(b: Bundle)
    ensures SafeDetails(DecisionDraft(b, "reserve", "ok").details)
    ensures SafeDetails(RequestedDraft(b).details)
  {
    WordsAreSafe();
  }

  lemma StartDraftsAreSafe(b: Bundle, now: int)
    ensures SafeDetails(ApprovalDraft(b, Approved, now, "human_approved").details)
    ensures SafeDetails(TransitionDraft(b, Started, "reserve_inventory", now).details)
  {
    WordsAreSafe();
  }

  // ------------------------------------------------------------ the run

  // One retrieved fact about exactly this source version that lets the gate through.
  function GoodFact(): Fact {
    Fact(Some(1), Some(true), Some(false), Some(false), Some(0.0))
  }

  function GoodResult(b: Bundle): RetrievedResult {
    RetrievedResult(Some("fulfillment_promise.v1"), Some(b.source.recordId), Some(b.source.version),
                    Some(b.source.system), Some(b.source.recordId), GoodFact())
  }

  function GoodAdvice(): Advice {
    Advice(true, "ok", [])
  }

  lemma GoodResultPasses(b: Bundle)
    ensures MatchingFacts([GoodResult(b)], b) == [GoodFact()] && CanReserve([GoodFact()])
  {
    assert [GoodResult(b)][1..] == [];
  }

  lemma AdviceOpens(s: LedgerState, b: Bundle, clock: int)
    requires Current(s, b, b.projectionAppliedAt)
    ensures var (s', pending) := AfterAdvice(s, b, [GoodFact()], Some(GoodAdvice()), clock);
      && Current(s', b, b.projectionAppliedAt) && s'.latest == s.latest
      && pending == Some(Pending(b, clock + APPROVAL_TTL, [GoodFact()]))
  {
    var d, q := DecisionDraft(b, "reserve", "ok"), RequestedDraft(b);
    ProposalDraftsAreSafe(b);
    OwnDraftKeepsCurrent(s, b, b.projectionAppliedAt, d);
    OwnDraftKeepsCurrent(Recorded(s, d), b, b.projectionAppliedAt, q);
    RecordTwo(s, d, q);
    GoodResultPasses(b);
    assert [] + [d, q] == [d, q];
  }

  lemma ApprovalCalls(s: LedgerState, b: Bundle, clock: int)
    requires Current(s, b, b.projectionAppliedAt) && clock == b.projectionAppliedAt
    ensures
      var (s', flow) := ResolveStart(s, Pending(b, clock + APPROVAL_TTL, [GoodFact()]), Approve, clock);
      flow == CallInventory && Current(s', b, clock) && s'.latest == s.latest
  {
    var d := ApprovalDraft(b, Approved, clock, "human_approved");
    var q := TransitionDraft(b, Started, "reserve_inventory", clock);
    StartDraftsAreSafe(b, clock);
    OwnDraftKeepsCurrent(s, b, clock, d);
    OwnDraftKeepsCurrent(Recorded(s, d), b, clock, q);
    RecordTwo(s, d, q);
  }

  function FactsSegment(b: Bundle): Segment {
    FactsArrive(1, Some([GoodResult(b)]))
  }

  function AdviceSegment(b: Bundle): Segment {
    AdviceArrives(1, Some(GoodAdvice()), b.projectionAppliedAt)
  }

  function ApproveSegment(b: Bundle): Segment {
    Command(b.runId, Approve, b.projectionAppliedAt)
  }

  // One run, on ledger 0, with the bundle delivered.
  predicate OneRun(s: Registry, b: Bundle) {
    && s.runs == [Slot(b.runId, 0)] && 0 in s.ledgers && s.deliveries == {b.Delivery()}
    && Current(s.ledgers[0], b, b.projectionAppliedAt)
    && s.ledgers[0].latest == map[b.source.Id() := b.source.version]
  }

  lemma AfterDelivery(b: Bundle)
    requires Displayable(b)
    ensures var s := Do(EMPTY, Deliver(b));
      OneRun(s, b) && s.tasks == map[1 := AwaitFacts(b, 0)] && s.nextId == 2 && s.pending == map[] && s.calls == []
  {
    ChainLeavesCurrent(b);
    var recorded := DeliverChain(Fresh(b.runId, MAX_EVENTS), b);
    DeliveredFirst(b, recorded);
    assert Do(EMPTY, Deliver(b)) == Delivered(EMPTY, b, recorded);
  }

  lemma DeliveredFirst(b: Bundle, recorded: (LedgerState, bool))
    requires recorded.1
    ensures var (s1, address) := GetOrCreate(EMPTY, b.runId);
      address == 0 && LedgerAt(s1, 0) == Fresh(b.runId, MAX_EVENTS)
    ensures Delivered(EMPTY, b, recorded)
         == Registry(map[0 := recorded.0], [Slot(b.runId, 0)], {b.Delivery()}, map[], map[1 := AwaitFacts(b, 0)], [], 2)
  {
  }

  lemma AfterFacts(s: Registry, b: Bundle)
    requires OneRun(s, b) && s.tasks == map[1 := AwaitFacts(b, 0)]
    ensures Do(s, FactsSegment(b)) == s.(tasks := map[1 := AwaitAdvice(b, 0, [GoodFact()])])
  {
    GoodResultPasses(b);
  }

  lemma AfterProposal(s: Registry, b: Bundle)
    requires OneRun(s, b) && s.tasks == map[1 := AwaitAdvice(b, 0, [GoodFact()])] && s.pending == map[]
    ensures var s' := Do(s, AdviceSegment(b));
      && OneRun(s', b) && s'.tasks == map[] && s'.nextId == s.nextId && s'.calls == s.calls
      && s'.pending == map[b.runId := Pending(b, b.projectionAppliedAt + APPROVAL_TTL, [GoodFact()])]
  {
    AdviceOpens(s.ledgers[0], b, b.projectionAppliedAt);
    var r := AfterAdvice(s.ledgers[0], b, [GoodFact()], Some(GoodAdvice()), b.projectionAppliedAt);
    SettledOne(s, b, r);
    assert Do(s, AdviceSegment(b)) == Settle(s, 1, r);
  }

  lemma SettledOne(s: Registry, b: Bundle, r: (LedgerState, Option<Pending>))
    requires 0 in s.ledgers && s.tasks == map[1 := AwaitAdvice(b, 0, [GoodFact()])] && s.pending == map[] && r.1.Some?
    ensures var s' := Settle(s, 1, r);
      && s'.runs == s.runs && s'.deliveries == s.deliveries && 0 in s'.ledgers && s'.ledgers[0] == r.0
      && s'.tasks == map[] && s'.nextId == s.nextId && s'.calls == s.calls
      && s'.pending == map[b.runId := r.1.value]
  {
  }

  lemma AfterApproval(s: Registry, b: Bundle)
    requires OneRun(s, b) && s.tasks == map[] && s.calls == []
    requires s.pending == map[b.runId := Pending(b, b.projectionAppliedAt + APPROVAL_TTL, [GoodFact()])]
    ensures var s' := Do(s, ApproveSegment(b));
      && OneRun(s', b) && s'.tasks == map[s.nextId := AwaitInventory(b, 0, b.projectionAppliedAt)]
      && |s'.calls| == 1 && s'.calls[0].pending.bundle == b
  {
    ApprovalCalls(s.ledgers[0], b, b.projectionAppliedAt);
    var (s1, address) := Popped(s, b.runId);
    assert address == 0 && s1.ledgers == s.ledgers;
  }

  function ToReservation(b: Bundle): seq<Segment> {
    [Deliver(b)] + [FactsSegment(b)] + [AdviceSegment(b)] + [ApproveSegment(b)]
  }

  // Reservations are reached: every valid, display-safe bundle, delivered to a new run, supported by
  // its fact, proposed and approved, leads to its one inventory call.
  lemma ReservationIsReached(b: Bundle)
    requires Displayable(b)
    ensures var s := Run(ToReservation(b));
      && OneRun(s, b) && |s.calls| == 1 && s.calls[0].pending.bundle == b
      && s.tasks == map[2 := AwaitInventory(b, 0, b.projectionAppliedAt)]
  {
    var d, f, a := [Deliver(b)], [FactsSegment(b)], [AdviceSegment(b)];
    RunOne(Do, EMPTY, Deliver(b));
    AfterDelivery(b);
    RunThen(Do, EMPTY, d, FactsSegment(b));
    AfterFacts(Run(d), b);
    RunThen(Do, EMPTY, d + f, AdviceSegment(b));
    AfterProposal(Run(d + f), b);
    RunThen(Do, EMPTY, d + f + a, ApproveSegment(b));
    AfterApproval(Run(d + f + a), b);
  }

  // ------------------------------------------------------------ and stranded

  // The next version of the same source, changed just after.
  function Successor(b: Bundle): Bundle {
    var later := b.projectionAppliedAt + 1;
    b.(source := b.source.(version := b.source.version + 1), cdcOccurredAt := later, projectionAppliedAt := later)
  }

  lemma SuccessorIsAccepted(s: Registry, b: Bundle)
    requires Displayable(b) && OneRun(s, b)
    ensures ValidBundle(Successor(b)) && Successor(b).Delivery() !in s.deliveries
    ensures Recordable(s.ledgers[0], SourceDraft(Successor(b)))
  {
    var n := Successor(b);
    DeliveryIdIdentifies(n.correlationId, n.source.system, n.source.recordId, n.source.version,
                         b.correlationId, b.source.system, b.source.recordId, b.source.version);
    SourceIsSafe(n);
  }

  // For every such bundle: its next version delivered during the inventory call strands it.
  lemma ReservationIsStranded(b: Bundle)
    requires Displayable(b)
    ensures
      var h := Watch(ToReservation(b) + [Deliver(Successor(b))] + [InventoryAnswers(2, true)]);
      2 in h.answers && FateOf(h.answers[2]) == Stranded && 2 !in h.registry.tasks
  {
    ReservationIsReached(b);
    SuccessorIsAccepted(Run(ToReservation(b)), b);
    LaterDeliveryStrands(ToReservation(b), 2, Successor(b));
  }

  // And there are such bundles.
  lemma StrandedReservationExists() returns (segments: seq<Segment>, task: nat)
    ensures task in Watch(segments).answers && FateOf(Watch(segments).answers[task]) == Stranded
    ensures task !in Run(segments).tasks
  {
    var b := Bundle("r", "c", SourceVersion("s", "x", 1), "e", "d", 0, 0);
    assert !IsSpace("r"[0]) && !IsSpace("c"[0]) && !IsSpace("s"[0]) && !IsSpace("x"[0]);
    assert !IsSpace("e"[0]) && !IsSpace("d"[0]);
    ReservationIsStranded(b);
    segments, task := ToReservation(b) + [Deliver(Successor(b))] + [InventoryAnswers(2, true)], 2;
    HoldInvHolds(segments);
  }
}
