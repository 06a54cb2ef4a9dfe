/** What a client reading the ledger sees of a delivery and of a decision, event by event. */
module ShowcaseTrail {
  import opened Prelude
  import opened ShowcaseLedger
  import opened ShowcaseSaga
  import opened ShowcaseGate

  // ------------------------------------------------------------ reading what was recorded

  // The events that recording these drafts in a row adds.
  function Numbered(s: LedgerState, drafts: seq<Draft>): (events: seq<ShowcaseEvent>)
    ensures |events| == |drafts|
    ensures forall i :: 0 <= i < |drafts| ==> events[i] == ShowcaseEvent(s.runId, s.sequence + 1 + i, drafts[i])
  {
    seq(|drafts|, i requires 0 <= i < |drafts| => ShowcaseEvent(s.runId, s.sequence + 1 + i, drafts[i]))
  }

  // Nothing retained is numbered beyond the ledger's sequence, and no more is retained than may be.
  predicate Orderly(s: LedgerState) {
    && s.maxEvents > 0 && |s.events| <= s.maxEvents
    && forall i :: 0 <= i < |s.events| ==> s.events[i].sequence <= s.sequence
  }

  lemma TailOfTail<T>(a: seq<T>, b: seq<T>, n: nat)
    ensures Tail(Tail(a, n) + b, n) == Tail(a + b, n)
  {
    if |a| > n {
      var k := |a| - n;
      assert (a + b)[k..] == a[k..] + b;
      assert (a + b)[k..][|b|..] == (a + b)[k + |b|..];
    }
  }

  lemma TailThrough<T>(a: seq<T>, x: T, b: seq<T>, n: nat)
    ensures Tail(Tail(a + [x], n) + b, n) == Tail(a + ([x] + b), n)
  {
    assert a + [x] + b == a + ([x] + b);
    TailOfTail(a + [x], b, n);
  }

  lemma RecordedLog(s: LedgerState, d: Draft)
    requires Orderly(s) && Recordable(s, d)
    ensures
      var s' := Recorded(s, d);
      && s'.events == Tail(s.events + [EventFor(s, d)], s.maxEvents) && s'.sequence == s.sequence + 1
      && s'.runId == s.runId && s'.maxEvents == s.maxEvents && Orderly(s')
  {
  }

  lemma NumberedCons(s: LedgerState, s1: LedgerState, drafts: seq<Draft>)
    requires drafts != [] && s1.runId == s.runId && s1.sequence == s.sequence + 1
    ensures Numbered(s, drafts) == [EventFor(s, drafts[0])] + Numbered(s1, drafts[1..])
  {
  }

  lemma {:induction false} RecordedEvents(s: LedgerState, drafts: seq<Draft>)
    requires Orderly(s) && RecordAll(s, drafts).1
    ensures RecordAll(s, drafts).0.events == Tail(s.events + Numbered(s, drafts), s.maxEvents)
    decreases |drafts|
  {
    if drafts == [] {
      assert s.events + Numbered(s, drafts) == s.events;
    } else {
      var s1 := Recorded(s, drafts[0]);
      RecordedLog(s, drafts[0]);
      RecordedEvents(s1, drafts[1..]);
      NumberedCons(s, s1, drafts);
      TailThrough(s.events, EventFor(s, drafts[0]), Numbered(s1, drafts[1..]), s.maxEvents);
    }
  }

  lemma {:induction false} ReadsAll(events: seq<ShowcaseEvent>, cursor: nat)
    requires forall i :: 0 <= i < |events| ==> events[i].sequence > cursor
    ensures EventsAfter(events, cursor) == events
  {
    if events != [] {
      assert events == [events[0]] + events[1..];
      ReadsAll(events[1..], cursor);
    }
  }

  lemma {:induction false} ReadsNew(before: seq<ShowcaseEvent>, after: seq<ShowcaseEvent>, cursor: nat)
    requires forall i :: 0 <= i < |before| ==> before[i].sequence <= cursor
    ensures EventsAfter(before + after, cursor) == EventsAfter(after, cursor)
  {
    if before == [] {
      assert before + after == after;
    } else {
      assert (before + after)[0] == before[0] && (before + after)[1..] == before[1..] + after;
      ReadsNew(before[1..], after, cursor);
      var rest := EventsAfter(before[1..] + after, cursor);
      assert [] + rest == rest;
    }
  }

  // A client that had read everything reads exactly the events just recorded, if they all fit.
  lemma RecordedAreRead(s: LedgerState, drafts: seq<Draft>)
    requires Orderly(s) && RecordAll(s, drafts).1 && |drafts| <= s.maxEvents
    ensures EventsAfter(RecordAll(s, drafts).0.events, s.sequence) == Numbered(s, drafts)
  {
    RecordedEvents(s, drafts);
    var all, added := s.events + Numbered(s, drafts), Numbered(s, drafts);
    var kept := if |all| <= s.maxEvents then s.events else s.events[|all| - s.maxEvents..];
    assert Tail(all, s.maxEvents) == kept + added;
    ReadsNew(kept, added, s.sequence);
    ReadsAll(added, s.sequence);
  }

  // ------------------------------------------------------------ the trail of a decision

  // What an approval or transaction event tells: its status, and its outcome or transition.
  datatype Word = Word(status: Status, step: string)

  predicate Tells(d: Draft, w: Word) {
    && d.status == w.status
    && match d.kind
       case HumanApproval => "outcome" in d.details && d.details["outcome"] == Text(w.step)
       case TransactionTransition => "transition" in d.details && d.details["transition"] == Text(w.step)
       case _ => false
  }

  predicate Tell(drafts: seq<Draft>, words: seq<Word>) {
    |drafts| == |words| && forall i :: 0 <= i < |drafts| ==> Tells(drafts[i], words[i])
  }

  predicate AllOwn(drafts: seq<Draft>, b: Bundle, now: int) {
    forall i :: 0 <= i < |drafts| ==> OwnDraft(drafts[i], b, now)
  }

  lemma RecordOne(s: LedgerState, d: Draft)
    ensures RecordAll(s, [d]) == if Recordable(s, d) then (Recorded(s, d), true) else (s, false)
  {
    assert [d][1..] == [];
    assert Recordable(s, d) ==> RecordAll(Recorded(s, d), []) == (Recorded(s, d), true);
  }

  lemma ClosingTrail(s: LedgerState, b: Bundle, status: Status, now: int, outcome: string)
    requires Writable(s, b, now) && DisplaySafe(outcome)
    ensures
      var d := ApprovalDraft(b, status, now, outcome);
      && RecordAll(s, [d]) == (Closing(s, d).0, true) && AllOwn([d], b, now) && Tell([d], [Word(status, outcome)])
  {
    var d := ApprovalDraft(b, status, now, outcome);
    ApprovalIsSafe(b, status, now, outcome);
    OwnRecordable(s, b, now, d);
    RecordOne(s, d);
  }

  lemma ApprovedTrail(s: LedgerState, p: Pending, now: int)
    requires Writable(s, p.bundle, now) && IsCurrent(s, p.bundle.source)
    ensures
      var drafts := StartDrafts(p.bundle, now);
      && RecordAll(s, drafts).1 && AllOwn(drafts, p.bundle, now)
      && Tell(drafts, [Word(Approved, "human_approved"), Word(Started, "reserve_inventory")])
  {
    ApproveStarts(s, p, now);
  }

  lemma StartTrail(s: LedgerState, p: Pending, action: Action, clock: int) returns (drafts: seq<Draft>)
    requires Writable(s, p.bundle, ResolveTime(p, clock))
    ensures RecordAll(s, drafts) == (ResolveStart(s, p, action, clock).0, true)
    ensures AllOwn(drafts, p.bundle, ResolveTime(p, clock))
    ensures
      if !IsCurrent(s, p.bundle.source) then Tell(drafts, [Word(Expired, "source_superseded")])
      else if ResolveTime(p, clock) > p.expiresAt then Tell(drafts, [Word(Expired, "approval_expired")])
      else if action.Reject? then Tell(drafts, [Word(Rejected, "human_rejected")])
      else Tell(drafts, [Word(Approved, "human_approved"), Word(Started, "reserve_inventory")])
  {
    var now, b := ResolveTime(p, clock), p.bundle;
    OutcomeWordsAreSafe();
    if !IsCurrent(s, b.source) {
      drafts := [ApprovalDraft(b, Expired, now, "source_superseded")];
      ClosingTrail(s, b, Expired, now, "source_superseded");
    } else if now > p.expiresAt {
      drafts := [ApprovalDraft(b, Expired, now, "approval_expired")];
      ClosingTrail(s, b, Expired, now, "approval_expired");
    } else if action.Reject? {
      drafts := [ApprovalDraft(b, Rejected, now, "human_rejected")];
      ClosingTrail(s, b, Rejected, now, "human_rejected");
    } else {
      drafts := StartDrafts(b, now);
      ApprovedTrail(s, p, now);
    }
  }

  lemma InventoryTrail(s: LedgerState, b: Bundle, now: int) returns (drafts: seq<Draft>)
    requires Settled(s, b, now)
    ensures RecordAll(s, drafts) == (AfterInventory(s, b, now, true).0, true) && AllOwn(drafts, b, now)
    ensures Tell(drafts, [Word(Completed, "reserve_inventory"), Word(Started, "reserve_carrier")])
  {
    drafts := [TransitionDraft(b, Completed, "reserve_inventory", now),
               TransitionDraft(b, Started, "reserve_carrier", now)];
    RecordTwo(s, drafts[0], drafts[1]);
    WorkflowIsSafe();
    TransitionRecordable(s, b, Completed, "reserve_inventory", now);
    TransitionRecordable(Recorded(s, drafts[0]), b, Started, "reserve_carrier", now);
  }

  function CarrierWords(o: Outcomes): seq<Word> {
    if o.carrier then [Word(Completed, "reserve_carrier")]
    else [Word(Compensating, "release_inventory"),
          Word(if o.release then Compensated else Failed, "release_inventory")]
  }

  lemma CarrierTrail(s: LedgerState, b: Bundle, now: int, o: Outcomes) returns (drafts: seq<Draft>)
    requires Settled(s, b, now)
    ensures RecordAll(s, drafts) == (FromRelease(AfterCarrier(s, b, now, o.carrier), b, now, o).ledger, true)
    ensures AllOwn(drafts, b, now)
    ensures Tell(drafts, CarrierWords(o))
  {
    WorkflowIsSafe();
    CarrierOutcomes(s, b, now, o.carrier);
    if o.carrier {
      drafts := [TransitionDraft(b, Completed, "reserve_carrier", now)];
      RecordOne(s, drafts[0]);
    } else {
      var end := if o.release then Compensated else Failed;
      drafts := [TransitionDraft(b, Compensating, "release_inventory", now),
                 TransitionDraft(b, end, "release_inventory", now)];
      RecordTwo(s, drafts[0], drafts[1]);
      TransitionRecordable(s, b, Compensating, "release_inventory", now);
      TransitionRecordable(Recorded(s, drafts[0]), b, end, "release_inventory", now);
    }
  }

  lemma TellConcat(a: seq<Draft>, v: seq<Word>, b: seq<Draft>, w: seq<Word>)
    requires Tell(a, v) && Tell(b, w)
    ensures Tell(a + b, v + w)
  {
    var all, words := a + b, v + w;
    forall i | 0 <= i < |all| ensures Tells(all[i], words[i]) {
      if i < |a| {
        assert all[i] == a[i] && words[i] == v[i];
      } else {
        assert all[i] == b[i - |a|] && words[i] == w[i - |a|];
      }
    }
  }

  lemma OwnConcat(first: seq<Draft>, second: seq<Draft>, b: Bundle, now: int)
    requires AllOwn(first, b, now) && AllOwn(second, b, now)
    ensures AllOwn(first + second, b, now)
  {
  }

  lemma TrailConcat(s: LedgerState, first: seq<Draft>, v: seq<Word>, mid: LedgerState, second: seq<Draft>, w: seq<Word>,
                    end: LedgerState, b: Bundle, now: int)
    requires RecordAll(s, first) == (mid, true) && RecordAll(mid, second) == (end, true)
    requires AllOwn(first, b, now) && AllOwn(second, b, now) && Tell(first, v) && Tell(second, w)
    ensures RecordAll(s, first + second) == (end, true)
    ensures AllOwn(first + second, b, now) && Tell(first + second, v + w)
  {
    RecordAllConcat(s, first, second);
    TellConcat(first, v, second, w);
    OwnConcat(first, second, b, now);
  }

  // What the calls after an approval tell.
  function ReservationWords(o: Outcomes): seq<Word> {
    if !o.inventory then []
    else
      [Word(Completed, "reserve_inventory"), Word(Started, "reserve_carrier")] + CarrierWords(o)
  }

  lemma CarrierPart(r: (LedgerState, Flow), b: Bundle, now: int, o: Outcomes)
    ensures r.1.CallCarrier? ==>
      FromCarrier(r, b, now, o).ledger == FromRelease(AfterCarrier(r.0, b, now, o.carrier), b, now, o).ledger
    ensures r.1.Raised? ==> FromCarrier(r, b, now, o).ledger == r.0
  {
  }

  lemma ReservationTrail(s: LedgerState, b: Bundle, now: int, o: Outcomes) returns (drafts: seq<Draft>)
    requires Settled(s, b, now)
    ensures RecordAll(s, drafts) == (FromCarrier(AfterInventory(s, b, now, o.inventory), b, now, o).ledger, true)
    ensures AllOwn(drafts, b, now) && Tell(drafts, ReservationWords(o))
  {
    InventoryOutcomes(s, b, now, o.inventory);
    CarrierPart(AfterInventory(s, b, now, o.inventory), b, now, o);
    if !o.inventory {
      drafts := [];
    } else {
      var held := AfterInventory(s, b, now, true);
      var first := InventoryTrail(s, b, now);
      var second := CarrierTrail(held.0, b, now, o);
      drafts := first + second;
      var end := FromRelease(AfterCarrier(held.0, b, now, o.carrier), b, now, o).ledger;
      TrailConcat(s, first, [Word(Completed, "reserve_inventory"), Word(Started, "reserve_carrier")], held.0,
                  second, CarrierWords(o), end, b, now);
    }
  }

  // What a decision tells, all in all.
  function DecisionWords(s: LedgerState, p: Pending, action: Action, clock: int, o: Outcomes): seq<Word> {
    if !IsCurrent(s, p.bundle.source) then [Word(Expired, "source_superseded")]
    else if ResolveTime(p, clock) > p.expiresAt then [Word(Expired, "approval_expired")]
    else if action.Reject? then [Word(Rejected, "human_rejected")]
    else [Word(Approved, "human_approved"), Word(Started, "reserve_inventory")] + ReservationWords(o)
  }

  lemma SagaTrail(s: LedgerState, p: Pending, action: Action, clock: int, o: Outcomes) returns (drafts: seq<Draft>)
    requires Writable(s, p.bundle, ResolveTime(p, clock))
    ensures RecordAll(s, drafts) == (Saga(s, p, action, clock, o).ledger, true)
    ensures AllOwn(drafts, p.bundle, ResolveTime(p, clock)) && Tell(drafts, DecisionWords(s, p, action, clock, o))
    ensures |drafts| <= 6
  {
    var now, b := ResolveTime(p, clock), p.bundle;
    var start := ResolveStart(s, p, action, clock);
    var first := StartTrail(s, p, action, clock);
    StartOutcomes(s, p, action, clock);
    if start.1.CallInventory? {
      var rest := ReservationTrail(start.0, b, now, o);
      drafts := first + rest;
      TrailConcat(s, first, [Word(Approved, "human_approved"), Word(Started, "reserve_inventory")], start.0,
                  rest, ReservationWords(o), Saga(s, p, action, clock, o).ledger, b, now);
    } else {
      drafts := first;
    }
  }

  // A client that had read everything before a decision then reads exactly its events: numbered on
  // from there, of this run, about the decided source version, at the moment of the decision, and
  // telling for every outcome of the tools the steps that were taken.
  lemma DecisionIsSeen(s: LedgerState, p: Pending, action: Action, clock: int, o: Outcomes)
    requires Orderly(s) && s.maxEvents >= 6 && Writable(s, p.bundle, ResolveTime(p, clock))
    ensures
      var read := EventsAfter(Saga(s, p, action, clock, o).ledger.events, s.sequence);
      var words := DecisionWords(s, p, action, clock, o);
      && |read| == |words|
      && forall i :: 0 <= i < |read| ==>
           && read[i].runId == s.runId && read[i].sequence == s.sequence + 1 + i
           && Tells(read[i].draft, words[i])
           && read[i].draft.source == Some(p.bundle.source)
           && read[i].draft.correlationId == p.bundle.correlationId
           && read[i].draft.timestamp == ResolveTime(p, clock)
  {
    var drafts := SagaTrail(s, p, action, clock, o);
    RecordedAreRead(s, drafts);
  }

  // ------------------------------------------------------------ the trail of a delivery

  // And after a delivery exactly its three events, the change stamped with the change and the
  // projection with its application.
  lemma DeliveryIsSeen(s: LedgerState, b: Bundle)
    requires Orderly(s) && s.maxEvents >= 3 && DeliverChain(s, b).1
    ensures
      var read := EventsAfter(DeliverChain(s, b).0.events, s.sequence);
      && |read| == 3
      && read[0].draft.kind.SourceChanged? && read[1].draft.kind.CdcReceived? && read[2].draft.kind.ProjectionApplied?
      && read[0].draft.timestamp == read[1].draft.timestamp == b.cdcOccurredAt
      && read[2].draft.timestamp == b.projectionAppliedAt
      && "event_id" in read[0].draft.details && read[0].draft.details["event_id"] == Text(b.eventId)
      && "event_id" in read[1].draft.details && read[1].draft.details["event_id"] == Text(b.eventId)
      && "document_id" in read[2].draft.details && read[2].draft.details["document_id"] == Text(b.documentId)
      && forall i :: 0 <= i < 3 ==>
           && read[i].draft.source == Some(b.source) && read[i].draft.correlationId == b.correlationId
  {
    RecordedAreRead(s, ChainDrafts(b));
  }

  // ------------------------------------------------------------ the trail of a proposal

  // What a proposal's event tells: a tool used, the decision with its reason, and how it ended.
  predicate TellsTool(d: Draft, tool: string, citations: nat) {
    && d.kind.AgentTool? && "tool_name" in d.details && d.details["tool_name"] == Text(tool)
    && "citation_count" in d.details && d.details["citation_count"] == Number(citations)
  }

  predicate TellsDecision(d: Draft, decision: string, reasonCode: string) {
    && d.kind.AgentDecision? && "decision" in d.details && d.details["decision"] == Text(decision)
    && "reason_code" in d.details && d.details["reason_code"] == Text(reasonCode)
  }

  lemma {:induction false} ToolDraftsTell(b: Bundle, tools: seq<string>, citations: nat)
    ensures |ToolDrafts(b, tools, citations)| == |tools|
    ensures forall i :: 0 <= i < |tools| ==>
      && TellsTool(ToolDrafts(b, tools, citations)[i], tools[i], citations)
      && OwnDraft(ToolDrafts(b, tools, citations)[i], b, b.projectionAppliedAt)
  {
    if tools != [] {
      ToolDraftsTell(b, tools[1..], citations);
    }
  }

  // The tools in order, then the decision with its reason, then the request for approval, or that the
  // run is blocked.
  predicate TellAdvice(drafts: seq<Draft>, b: Bundle, a: Advice, citations: nat, opens: bool) {
    var n := |a.toolsUsed|;
    && |drafts| == n + 2
    && (forall i :: 0 <= i < n ==> TellsTool(drafts[i], a.toolsUsed[i], citations))
    && TellsDecision(drafts[n], if opens then "reserve" else "decline", a.reasonCode)
    && (if opens then
          && drafts[n + 1].kind.HumanApproval? && drafts[n + 1].status.Requested?
          && "expires_in_seconds" in drafts[n + 1].details
          && drafts[n + 1].details["expires_in_seconds"] == Number(300)
        else Tells(drafts[n + 1], Word(Failed, "blocked")))
    && AllOwn(drafts, b, b.projectionAppliedAt)
  }

  lemma AdviceTells(b: Bundle, a: Advice, citations: nat, opens: bool)
    ensures
      var last := if opens then RequestedDraft(b) else TransitionDraft(b, Failed, "blocked", b.projectionAppliedAt);
      var ending := [DecisionDraft(b, if opens then "reserve" else "decline", a.reasonCode), last];
      TellAdvice(ToolDrafts(b, a.toolsUsed, citations) + ending, b, a, citations, opens)
  {
    ToolDraftsTell(b, a.toolsUsed, citations);
  }

  function DraftsRead(events: seq<ShowcaseEvent>): (drafts: seq<Draft>)
    ensures |drafts| == |events| && forall i :: 0 <= i < |events| ==> drafts[i] == events[i].draft
  {
    seq(|events|, i requires 0 <= i < |events| => events[i].draft)
  }

  lemma RecordedDraftsAreRead(s: LedgerState, drafts: seq<Draft>)
    requires Orderly(s) && RecordAll(s, drafts).1 && |drafts| <= s.maxEvents
    ensures DraftsRead(EventsAfter(RecordAll(s, drafts).0.events, s.sequence)) == drafts
  {
    RecordedAreRead(s, drafts);
  }

  // A client that had read everything before the proposer's answer then reads exactly that.
  lemma AdviceIsSeen(s: LedgerState, b: Bundle, facts: seq<Fact>, a: Advice, clock: int)
    requires Orderly(s) && s.maxEvents >= |a.toolsUsed| + 2
    requires Writable(s, b, b.projectionAppliedAt) && Presentable(Some(a))
    ensures
      var read := EventsAfter(AfterAdvice(s, b, facts, Some(a), clock).0.events, s.sequence);
      TellAdvice(DraftsRead(read), b, a, |facts|, a.reserve && CanReserve(facts))
  {
    var now, opens := b.projectionAppliedAt, a.reserve && CanReserve(facts);
    var last := if opens then RequestedDraft(b) else TransitionDraft(b, Failed, "blocked", now);
    var decision := if opens then "reserve" else "decline";
    var drafts := ToolDrafts(b, a.toolsUsed, |facts|) + [DecisionDraft(b, decision, a.reasonCode), last];
    ProposalWordsAreSafe();
    ProposalRecorded(s, b, a.toolsUsed, |facts|, decision, a.reasonCode, last);
    AdviceTells(b, a, |facts|, opens);
    RecordedDraftsAreRead(s, drafts);
    ProposalUnfolds(s, b, facts, Some(a), clock, drafts, opens);
  }
}
