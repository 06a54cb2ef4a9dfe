/** The gate in front of a reservation: what was delivered, retrieved, advised and decided before every call. */
module ShowcaseGate {
  import opened Prelude
  import opened ShowcaseLedger
  import opened ShowcaseSaga
  import opened ShowcaseRegistry

  // ------------------------------------------------------------ the gate in the fields of a result

  // A fulfilment promise about this very source version, cited from the bundle's own source.
  predicate About(r: RetrievedResult, b: Bundle) {
    && r.kind == Some("fulfillment_promise.v1") && r.sku == Some(b.source.recordId)
    && r.sourceVersion == Some(b.source.version)
    && r.citedSystem == Some(b.source.system) && r.citedRecord == Some(b.source.recordId)
  }

  // Something is left to promise, the carrier's cutoff is open, neither hold is on, and the fact is
  // at most five minutes old.
  predicate Promises(f: Fact) {
    match f
    case Fact(Some(available), Some(cutoffOpen), Some(addressHold), Some(riskHold), Some(age)) =>
      available >= 1 && cutoffOpen && !addressHold && !riskHold && age <= 300.0
    case _ => false
  }

  // Result k is the only one about the bundle's source version, and it promises.
  predicate BackedBy(results: seq<RetrievedResult>, b: Bundle, k: nat) {
    && k < |results| && Promises(results[k].fact)
    && forall j :: 0 <= j < |results| ==> (About(results[j], b) <==> j == k)
  }

  predicate Backed(results: seq<RetrievedResult>, b: Bundle) {
    exists k :: 0 <= k < |results| && BackedBy(results, b, k)
  }

  lemma {:induction false} NoneMatch(results: seq<RetrievedResult>, b: Bundle)
    ensures MatchingFacts(results, b) == [] <==> forall j :: 0 <= j < |results| ==> !About(results[j], b)
  {
    if results != [] {
      var rest := results[1..];
      NoneMatch(rest, b);
      assert forall j :: 0 < j < |results| ==> results[j] == rest[j - 1];
      assert forall j :: 0 <= j < |rest| ==> rest[j] == results[j + 1];
    }
  }

  lemma {:induction false} OneMatches(results: seq<RetrievedResult>, b: Bundle) returns (k: nat)
    requires |MatchingFacts(results, b)| == 1
    ensures k < |results| && MatchingFacts(results, b) == [results[k].fact]
    ensures forall j :: 0 <= j < |results| ==> (About(results[j], b) <==> j == k)
  {
    var rest := results[1..];
    assert forall j :: 0 < j < |results| ==> results[j] == rest[j - 1];
    if About(results[0], b) {
      NoneMatch(rest, b);
      k := 0;
    } else {
      var i := OneMatches(rest, b);
      k := i + 1;
    }
  }

  lemma {:induction false} MatchIsOnly(results: seq<RetrievedResult>, b: Bundle, k: nat)
    requires k < |results| && forall j :: 0 <= j < |results| ==> (About(results[j], b) <==> j == k)
    ensures MatchingFacts(results, b) == [results[k].fact]
  {
    var rest := results[1..];
    assert forall j :: 0 <= j < |rest| ==> rest[j] == results[j + 1];
    if k == 0 {
      NoneMatch(rest, b);
    } else {
      MatchIsOnly(rest, b, k - 1);
    }
  }

  // The gate lets a set of results through exactly when they back the reservation.
  lemma GateExactly(results: seq<RetrievedResult>, b: Bundle)
    ensures CanReserve(MatchingFacts(results, b)) <==> Backed(results, b)
  {
    if CanReserve(MatchingFacts(results, b)) {
      var k := OneMatches(results, b);
      assert BackedBy(results, b, k);
    }
    if k :| 0 <= k < |results| && BackedBy(results, b, k) {
      MatchIsOnly(results, b, k);
    }
  }

  // ------------------------------------------------------------ when a checkpoint opens

  lemma ProposalWordsAreSafe()
    ensures DisplaySafe("reserve") && DisplaySafe("decline") && DisplaySafe("agent_unavailable")
  {
  }

  lemma DecisionIsSafe(b: Bundle, decision: string, reasonCode: string)
    requires DisplaySafe(decision)
    ensures SafeDetails(DecisionDraft(b, decision, reasonCode).details) <==> DisplaySafe(reasonCode)
  {
    WorkflowIsSafe();
    var d := DecisionDraft(b, decision, reasonCode);
    assert d.details["reason_code"] == Text(reasonCode) && "reason_code" in d.details;
    assert "decision" in DISPLAY_SAFE_KEYS && "reason_code" in DISPLAY_SAFE_KEYS && "workflow" in DISPLAY_SAFE_KEYS;
  }

  lemma ToolIsSafe(b: Bundle, tool: string, citations: nat)
    ensures SafeDetails(ToolDrafts(b, [tool], citations)[0].details) <==> DisplaySafe(tool)
  {
    var d := ToolDrafts(b, [tool], citations)[0];
    assert d.details["tool_name"] == Text(tool) && "tool_name" in d.details;
    assert "tool_name" in DISPLAY_SAFE_KEYS && "citation_count" in DISPLAY_SAFE_KEYS;
  }

  lemma LastWordsAreSafe(b: Bundle)
    ensures SafeDetails(RequestedDraft(b).details)
    ensures SafeDetails(TransitionDraft(b, Failed, "blocked", b.projectionAppliedAt).details)
  {
    WorkflowIsSafe();
    ActionIsSafe();
    assert "action" in DISPLAY_SAFE_KEYS && "expires_in_seconds" in DISPLAY_SAFE_KEYS
        && "workflow" in DISPLAY_SAFE_KEYS && "transition" in DISPLAY_SAFE_KEYS;
  }

  // The tools' events are all recorded exactly when the ledger takes the bundle's events and every
  // tool name may be shown; the run's status stays as it was.
  lemma {:induction false} ToolsRecorded(s: LedgerState, b: Bundle, tools: seq<string>, citations: nat)
    requires Writable(s, b, b.projectionAppliedAt)
    ensures
      var (s', done) := RecordAll(s, ToolDrafts(b, tools, citations));
      && (done <==> forall t :: t in tools ==> DisplaySafe(t))
      && (done ==> Writable(s', b, b.projectionAppliedAt) && s'.status == s.status)
    decreases |tools|
  {
    if tools != [] {
      var d := ToolDrafts(b, [tools[0]], citations)[0];
      assert ToolDrafts(b, tools, citations)[0] == d;
      assert ToolDrafts(b, tools, citations)[1..] == ToolDrafts(b, tools[1..], citations);
      assert tools == [tools[0]] + tools[1..];
      ToolIsSafe(b, tools[0], citations);
      OwnRecordable(s, b, b.projectionAppliedAt, d);
      if Recordable(s, d) {
        ToolsRecorded(Recorded(s, d), b, tools[1..], citations);
      }
    }
  }

  // A ledger that does not take the bundle's events takes none of them.
  lemma NothingRecorded(s: LedgerState, b: Bundle, drafts: seq<Draft>)
    requires drafts != [] && OwnDraft(drafts[0], b, b.projectionAppliedAt) && !Writable(s, b, b.projectionAppliedAt)
    ensures RecordAll(s, drafts) == (s, false)
  {
    OwnRecordable(s, b, b.projectionAppliedAt, drafts[0]);
  }

  // The decision and the event that closes the proposal.
  lemma DecidedThen(s: LedgerState, b: Bundle, decision: string, reasonCode: string, last: Draft)
    requires Writable(s, b, b.projectionAppliedAt) && DisplaySafe(decision)
    requires last == RequestedDraft(b) || last == TransitionDraft(b, Failed, "blocked", b.projectionAppliedAt)
    ensures
      var (s', done) := RecordAll(s, [DecisionDraft(b, decision, reasonCode), last]);
      && (done <==> DisplaySafe(reasonCode))
      && (done ==> s'.status == StatusAfter(s.status, last))
  {
    var d := DecisionDraft(b, decision, reasonCode);
    RecordTwo(s, d, last);
    DecisionIsSafe(b, decision, reasonCode);
    LastWordsAreSafe(b);
    OwnRecordable(s, b, b.projectionAppliedAt, d);
    if Recordable(s, d) {
      OwnRecordable(Recorded(s, d), b, b.projectionAppliedAt, last);
    }
  }

  // A whole proposal: tools, decision and closing event.
  lemma ProposalRecorded(s: LedgerState, b: Bundle, tools: seq<string>, citations: nat, decision: string,
                         reasonCode: string, last: Draft)
    requires DisplaySafe(decision)
    requires last == RequestedDraft(b) || last == TransitionDraft(b, Failed, "blocked", b.projectionAppliedAt)
    ensures
      var (s', done) := RecordAll(s, ToolDrafts(b, tools, citations) + [DecisionDraft(b, decision, reasonCode), last]);
      && (done <==> && Writable(s, b, b.projectionAppliedAt) && DisplaySafe(reasonCode)
                    && forall t :: t in tools ==> DisplaySafe(t))
      && (done ==> s'.status == StatusAfter(s.status, last))
  {
    var first, ending := ToolDrafts(b, tools, citations), [DecisionDraft(b, decision, reasonCode), last];
    RecordAllConcat(s, first, ending);
    if Writable(s, b, b.projectionAppliedAt) {
      ToolsRecorded(s, b, tools, citations);
      var (s1, done) := RecordAll(s, first);
      if done {
        DecidedThen(s1, b, decision, reasonCode, last);
      }
    } else {
      assert OwnDraft((first + ending)[0], b, b.projectionAppliedAt);
      NothingRecorded(s, b, first + ending);
    }
  }

  // Everything the advice puts on the ledger may be shown there.
  predicate Presentable(advice: Option<Advice>) {
    advice.Some? ==>
      DisplaySafe(advice.value.reasonCode) && forall t :: t in advice.value.toolsUsed ==> DisplaySafe(t)
  }

  predicate Reserves(advice: Option<Advice>, facts: seq<Fact>) {
    advice.Some? && advice.value.reserve && CanReserve(facts)
  }

  lemma DraftsOfAdvice(b: Bundle, facts: seq<Fact>, advice: Option<Advice>)
    returns (tools: seq<string>, decision: string, reasonCode: string, last: Draft)
    ensures DisplaySafe(decision)
    ensures last == if Reserves(advice, facts) then RequestedDraft(b)
                    else TransitionDraft(b, Failed, "blocked", b.projectionAppliedAt)
    ensures AdviceDrafts(b, facts, advice)
         == (ToolDrafts(b, tools, |facts|) + [DecisionDraft(b, decision, reasonCode), last], Reserves(advice, facts))
    ensures Presentable(advice) <==> DisplaySafe(reasonCode) && forall t :: t in tools ==> DisplaySafe(t)
  {
    ProposalWordsAreSafe();
    decision := if Reserves(advice, facts) then "reserve" else "decline";
    last := if Reserves(advice, facts) then RequestedDraft(b)
            else TransitionDraft(b, Failed, "blocked", b.projectionAppliedAt);
    if advice.None? {
      tools, reasonCode := [], "agent_unavailable";
      assert ToolDrafts(b, tools, |facts|) + [DecisionDraft(b, decision, reasonCode), last]
          == [DecisionDraft(b, decision, reasonCode), last];
    } else {
      tools, reasonCode := advice.value.toolsUsed, advice.value.reasonCode;
    }
  }

  // process, from the proposer's answer on: it opens a checkpoint that lasts five minutes exactly when
  // the advice reserves, the gate passes, and everything can be recorded; the run then waits for
  // approval. Otherwise there is none, and whatever can be recorded ends in a failed run.
  lemma AdviceOutcomes(s: LedgerState, b: Bundle, facts: seq<Fact>, advice: Option<Advice>, clock: int)
    ensures
      var (s', pending) := AfterAdvice(s, b, facts, advice, clock);
      var recorded := Writable(s, b, b.projectionAppliedAt) && Presentable(advice);
      && pending == (if Reserves(advice, facts) && recorded then Some(Pending(b, clock + 300_000_000, facts)) else None)
      && (recorded ==> s'.status == if Reserves(advice, facts) then RunAwaitingApproval else RunFailed)
  {
    var tools, decision, reasonCode, last := DraftsOfAdvice(b, facts, advice);
    var drafts := ToolDrafts(b, tools, |facts|) + [DecisionDraft(b, decision, reasonCode), last];
    ProposalRecorded(s, b, tools, |facts|, decision, reasonCode, last);
    ClosingStatus(s.status, b);
    ProposalUnfolds(s, b, facts, advice, clock, drafts, Reserves(advice, facts));
  }

  lemma ClosingStatus(status: RunStatus, b: Bundle)
    ensures StatusAfter(status, RequestedDraft(b)) == RunAwaitingApproval
    ensures StatusAfter(status, TransitionDraft(b, Failed, "blocked", b.projectionAppliedAt)) == RunFailed
  {
  }

  lemma ProposalUnfolds(s: LedgerState, b: Bundle, facts: seq<Fact>, advice: Option<Advice>, clock: int,
                        drafts: seq<Draft>, opens: bool)
    requires AdviceDrafts(b, facts, advice) == (drafts, opens)
    ensures var r := RecordAll(s, drafts);
      AfterAdvice(s, b, facts, advice, clock)
      == (r.0, if r.1 && opens then Some(Pending(b, clock + 300_000_000, facts)) else None)
  {
  }

  // In the registry, for results that may have been retrieved any number of segments before.
  lemma CheckpointOpensExactly(
    s: Registry, task: nat, results: seq<RetrievedResult>, advice: Option<Advice>, clock: int)
    requires task in s.tasks && s.tasks[task].AwaitAdvice?
    requires s.tasks[task].facts == MatchingFacts(results, s.tasks[task].bundle)
    ensures
      var t, s' := s.tasks[task], Do(s, AdviceArrives(task, advice, clock));
      var b, l := t.bundle, LedgerAt(s, t.ledger);
      var reserves := advice.Some? && advice.value.reserve && Backed(results, b);
      var recorded := Writable(l, b, b.projectionAppliedAt) && Presentable(advice);
      && task !in s'.tasks && s'.calls == s.calls
      && s'.pending == (if reserves && recorded then s.pending[b.runId := Pending(b, clock + 300_000_000, t.facts)]
                        else s.pending)
      && (recorded ==> LedgerAt(s', t.ledger).status == if reserves then RunAwaitingApproval else RunFailed)
  {
    var t := s.tasks[task];
    GateExactly(results, t.bundle);
    AdviceOutcomes(LedgerAt(s, t.ledger), t.bundle, t.facts, advice, clock);
    AdviceSettles(s, task, advice, clock);
  }

  // Without retrieved context there is no checkpoint and no call, and the run fails.
  lemma UnavailableContextFails(s: Registry, task: nat)
    requires task in s.tasks && s.tasks[task].AwaitFacts?
    ensures
      var t, s' := s.tasks[task], Do(s, FactsArrive(task, None));
      var l := LedgerAt(s, t.ledger);
      && s'.tasks == s.tasks - {task} && s'.pending == s.pending && s'.calls == s.calls
      && (Writable(l, t.bundle, t.bundle.projectionAppliedAt) ==> LedgerAt(s', t.ledger).status == RunFailed)
  {
    var b, l := s.tasks[task].bundle, LedgerAt(s, s.tasks[task].ledger);
    ContextWordIsSafe();
    ProposalWordsAreSafe();
    ClosingStatus(l.status, b);
    if Writable(l, b, b.projectionAppliedAt) {
      DecidedThen(l, b, "decline", "context_unavailable", TransitionDraft(b, Failed, "blocked", b.projectionAppliedAt));
    }
  }

  lemma ContextWordIsSafe()
    ensures DisplaySafe("context_unavailable")
  {
  }

  lemma AdviceSettles(s: Registry, task: nat, advice: Option<Advice>, clock: int)
    requires task in s.tasks && s.tasks[task].AwaitAdvice?
    ensures
      var t, s' := s.tasks[task], Do(s, AdviceArrives(task, advice, clock));
      var r := AfterAdvice(LedgerAt(s, t.ledger), t.bundle, t.facts, advice, clock);
      && s'.tasks == s.tasks - {task} && s'.calls == s.calls && LedgerAt(s', t.ledger) == r.0
      && s'.pending == if r.1.Some? then s.pending[t.bundle.runId := r.1.value] else s.pending
  {
  }

  // ------------------------------------------------------------ the history behind every call

  predicate DeliveredAt(segments: seq<Segment>, n: nat, b: Bundle) {
    n < |segments| && segments[n] == Deliver(b) && ValidBundle(b)
  }

  // At n the coroutine's retrieval was answered, after the delivery it serves.
  ghost predicate RetrievedAt(segments: seq<Segment>, n: nat, task: nat, b: Bundle, facts: seq<Fact>) {
    && n < |segments| && segments[n].FactsArrive? && segments[n].task == task && segments[n].results.Some?
    && facts == MatchingFacts(segments[n].results.value, b)
    && exists m :: 0 <= m < n && DeliveredAt(segments, m, b)
  }

  // At n a checkpoint was opened, on facts retrieved before for the same coroutine.
  ghost predicate ProposedAt(segments: seq<Segment>, n: nat, p: Pending) {
    && n < |segments| && segments[n].AdviceArrives? && segments[n].advice.Some? && segments[n].advice.value.reserve
    && CanReserve(p.facts) && p.expiresAt == segments[n].clock + APPROVAL_TTL
    && exists m :: 0 <= m < n && RetrievedAt(segments, m, segments[n].task, p.bundle, p.facts)
  }

  // At n a person approved, in time and on the run's own ledger, a checkpoint opened before.
  ghost predicate ApprovedAt(segments: seq<Segment>, n: nat, c: ReserveCall) {
    && n < |segments| && segments[n].Command? && segments[n].runId == c.pending.bundle.runId
    && segments[n].action.Approve? && c.now == ResolveTime(c.pending, segments[n].clock)
    && c.now <= c.pending.expiresAt && FoundOn(Run(segments[..n]), c)
    && exists m :: 0 <= m < n && ProposedAt(segments, m, c.pending)
  }

  // The run held the ledger the call was decided on, and there the source version was current.
  predicate FoundOn(s: Registry, c: ReserveCall) {
    && Find(s.runs, c.pending.bundle.runId).Some?
    && c.found == LedgerAt(s, Find(s.runs, c.pending.bundle.runId).value)
    && IsCurrent(c.found, c.pending.bundle.source)
  }

  ghost predicate TaskTraced(segments: seq<Segment>, task: nat, t: Task) {
    match t
    case AwaitFacts(b, _) => exists n :: DeliveredAt(segments, n, b)
    case AwaitAdvice(b, _, facts) => exists n :: RetrievedAt(segments, n, task, b, facts)
    case _ => true
  }

  ghost predicate PendingTraced(segments: seq<Segment>, runId: string, p: Pending) {
    p.bundle.runId == runId && exists n :: ProposedAt(segments, n, p)
  }

  ghost predicate CallTraced(segments: seq<Segment>, c: ReserveCall) {
    exists n :: ApprovedAt(segments, n, c)
  }

  ghost predicate Traced(segments: seq<Segment>, s: Registry) {
    && (forall task :: task in s.tasks ==> TaskTraced(segments, task, s.tasks[task]))
    && (forall runId :: runId in s.pending ==> PendingTraced(segments, runId, s.pending[runId]))
    && (forall i :: 0 <= i < |s.calls| ==> CallTraced(segments, s.calls[i]))
  }

  // What was traced stays traced when more happens.
  lemma DeliveredStays(segments: seq<Segment>, x: Segment, n: nat, b: Bundle)
    requires DeliveredAt(segments, n, b)
    ensures DeliveredAt(segments + [x], n, b)
  {
  }

  lemma RetrievedStays(segments: seq<Segment>, x: Segment, n: nat, task: nat, b: Bundle, facts: seq<Fact>)
    requires RetrievedAt(segments, n, task, b, facts)
    ensures RetrievedAt(segments + [x], n, task, b, facts)
  {
    var m :| 0 <= m < n && DeliveredAt(segments, m, b);
    DeliveredStays(segments, x, m, b);
  }

  lemma ProposedStays(segments: seq<Segment>, x: Segment, n: nat, p: Pending)
    requires ProposedAt(segments, n, p)
    ensures ProposedAt(segments + [x], n, p)
  {
    var m :| 0 <= m < n && RetrievedAt(segments, m, segments[n].task, p.bundle, p.facts);
    RetrievedStays(segments, x, m, segments[n].task, p.bundle, p.facts);
  }

  lemma ApprovedStays(segments: seq<Segment>, x: Segment, n: nat, c: ReserveCall)
    requires ApprovedAt(segments, n, c)
    ensures ApprovedAt(segments + [x], n, c)
  {
    var m :| 0 <= m < n && ProposedAt(segments, m, c.pending);
    ProposedStays(segments, x, m, c.pending);
    assert (segments + [x])[..n] == segments[..n];
  }

  lemma TaskStays(segments: seq<Segment>, x: Segment, task: nat, t: Task)
    requires TaskTraced(segments, task, t)
    ensures TaskTraced(segments + [x], task, t)
  {
    match t
    case AwaitFacts(b, _) =>
      var n :| DeliveredAt(segments, n, b);
      DeliveredStays(segments, x, n, b);
    case AwaitAdvice(b, _, facts) =>
      var n :| RetrievedAt(segments, n, task, b, facts);
      RetrievedStays(segments, x, n, task, b, facts);
    case _ =>
  }

  lemma PendingStays(segments: seq<Segment>, x: Segment, runId: string, p: Pending)
    requires PendingTraced(segments, runId, p)
    ensures PendingTraced(segments + [x], runId, p)
  {
    var n :| ProposedAt(segments, n, p);
    ProposedStays(segments, x, n, p);
  }

  lemma CallStays(segments: seq<Segment>, x: Segment, c: ReserveCall)
    requires CallTraced(segments, c)
    ensures CallTraced(segments + [x], c)
  {
    var n :| ApprovedAt(segments, n, c);
    ApprovedStays(segments, x, n, c);
  }

  lemma TracedStays(segments: seq<Segment>, x: Segment, s: Registry)
    requires Traced(segments, s)
    ensures Traced(segments + [x], s)
  {
    forall task | task in s.tasks ensures TaskTraced(segments + [x], task, s.tasks[task]) {
      TaskStays(segments, x, task, s.tasks[task]);
    }
    forall runId | runId in s.pending ensures PendingTraced(segments + [x], runId, s.pending[runId]) {
      PendingStays(segments, x, runId, s.pending[runId]);
    }
    forall i | 0 <= i < |s.calls| ensures CallTraced(segments + [x], s.calls[i]) {
      CallStays(segments, x, s.calls[i]);
    }
  }

  lemma Retrieved(segments: seq<Segment>, task: nat, t: Task, results: seq<RetrievedResult>)
    requires t.AwaitFacts? && TaskTraced(segments, task, t)
    ensures
      var facts := MatchingFacts(results, t.bundle);
      RetrievedAt(segments + [FactsArrive(task, Some(results))], |segments|, task, t.bundle, facts)
  {
    var x := FactsArrive(task, Some(results));
    var m :| DeliveredAt(segments, m, t.bundle);
    DeliveredStays(segments, x, m, t.bundle);
    assert (segments + [x])[|segments|] == x;
  }

  lemma Proposed(segments: seq<Segment>, s: LedgerState, task: nat, t: Task, advice: Option<Advice>, clock: int)
    requires t.AwaitAdvice? && TaskTraced(segments, task, t)
    requires AfterAdvice(s, t.bundle, t.facts, advice, clock).1.Some?
    ensures
      var p := AfterAdvice(s, t.bundle, t.facts, advice, clock).1.value;
      p.bundle == t.bundle && ProposedAt(segments + [AdviceArrives(task, advice, clock)], |segments|, p)
  {
    var x := AdviceArrives(task, advice, clock);
    var m :| RetrievedAt(segments, m, task, t.bundle, t.facts);
    RetrievedStays(segments, x, m, task, t.bundle, t.facts);
    AdviceOutcomes(s, t.bundle, t.facts, advice, clock);
    assert (segments + [x])[|segments|] == x;
  }

  // A decision that leads to a call found the run's own ledger: on a new one nothing is current.
  lemma FoundOnRun(s: Registry, runId: string, p: Pending)
    requires p.bundle.runId == runId && Find(Popped(s, runId).0.runs, runId).Some?
    requires var (s1, address) := Popped(s, runId); IsCurrent(LedgerAt(s1, address), p.bundle.source)
    ensures Find(s.runs, runId).Some? && Popped(s, runId).1 == Find(s.runs, runId).value
    ensures LedgerAt(Popped(s, runId).0, Popped(s, runId).1) == LedgerAt(s, Popped(s, runId).1)
  {
  }

  // The call a command makes if it makes one.
  function CallOf(s: Registry, runId: string, action: Action, clock: int): ReserveCall
    requires runId in s.pending
  {
    var (s1, address) := Popped(s, runId);
    ReserveCall(s.pending[runId], action, ResolveTime(s.pending[runId], clock), LedgerAt(s1, address))
  }

  function Decision(s: Registry, runId: string, action: Action, clock: int): (LedgerState, Flow)
    requires runId in s.pending
  {
    ResolveStart(CallOf(s, runId, action, clock).found, s.pending[runId], action, clock)
  }

  lemma Approved(segments: seq<Segment>, s: Registry, runId: string, action: Action, clock: int)
    requires s == Run(segments) && runId in s.pending && PendingTraced(segments, runId, s.pending[runId])
    requires Decision(s, runId, action, clock).1.CallInventory?
    ensures CallTraced(segments + [Command(runId, action, clock)], CallOf(s, runId, action, clock))
  {
    var x, p := Command(runId, action, clock), s.pending[runId];
    var (s1, address) := Popped(s, runId);
    StartOutcomes(LedgerAt(s1, address), p, action, clock);
    FindHits(s1.runs, runId);
    OpenedIsFound(s, runId);
    FoundOnRun(s, runId, p);
    var m :| ProposedAt(segments, m, p);
    ProposedStays(segments, x, m, p);
    assert (segments + [x])[|segments|] == x && (segments + [x])[..|segments|] == segments;
    assert ApprovedAt(segments + [x], |segments|, CallOf(s, runId, action, clock));
  }

  lemma OpenedIsFound(s: Registry, runId: string)
    ensures Find(Popped(s, runId).0.runs, runId).Some?
  {
    FindHits(s.runs, runId);
    FindHits(Popped(s, runId).0.runs, runId);
    var s1 := Popped(s, runId).0;
    if Find(s.runs, runId).None? {
      assert s1.runs[|s1.runs| - 1].runId == runId;
    }
  }

  // The segment left this coroutine as it was, or ended it, or it is traced.
  ghost predicate TaskNext(all: seq<Segment>, s: Registry, s': Registry, task: nat) {
    task in s'.tasks ==> (task in s.tasks && s.tasks[task] == s'.tasks[task]) || TaskTraced(all, task, s'.tasks[task])
  }

  ghost predicate PendingNext(all: seq<Segment>, s: Registry, s': Registry, runId: string) {
    runId in s'.pending ==>
      (runId in s.pending && s.pending[runId] == s'.pending[runId]) || PendingTraced(all, runId, s'.pending[runId])
  }

  // What a segment leaves in place stays traced; it remains to trace what it adds.
  lemma TracedNext(segments: seq<Segment>, x: Segment, s: Registry, s': Registry)
    requires Traced(segments, s)
    requires forall task: nat :: TaskNext(segments + [x], s, s', task)
    requires forall runId: string :: PendingNext(segments + [x], s, s', runId)
    requires s'.calls == s.calls
             || (|s'.calls| == |s.calls| + 1 && s'.calls[..|s.calls|] == s.calls
                 && CallTraced(segments + [x], s'.calls[|s.calls|]))
    ensures Traced(segments + [x], s')
  {
    TracedStays(segments, x, s);
    forall task | task in s'.tasks ensures TaskTraced(segments + [x], task, s'.tasks[task]) {
      assert TaskNext(segments + [x], s, s', task);
    }
    forall runId | runId in s'.pending ensures PendingTraced(segments + [x], runId, s'.pending[runId]) {
      assert PendingNext(segments + [x], s, s', runId);
    }
    forall i | 0 <= i < |s'.calls| ensures CallTraced(segments + [x], s'.calls[i]) {
      assert i < |s.calls| ==> s'.calls[i] == s.calls[i];
    }
  }

  lemma DeliveredParts(s: Registry, b: Bundle, recorded: (LedgerState, bool))
    ensures
      var s', id := Delivered(s, b, recorded), GetOrCreate(s, b.runId).0.nextId;
      && s'.pending == s.pending && s'.calls == s.calls
      && (s'.tasks == s.tasks || s'.tasks == s.tasks[id := AwaitFacts(b, GetOrCreate(s, b.runId).1)])
  {
  }

  lemma DeliveredTraced(segments: seq<Segment>, s: Registry, b: Bundle, recorded: (LedgerState, bool))
    requires Traced(segments, s) && ValidBundle(b)
    ensures Traced(segments + [Deliver(b)], Delivered(s, b, recorded))
  {
    var all, s' := segments + [Deliver(b)], Delivered(s, b, recorded);
    assert DeliveredAt(all, |segments|, b);
    DeliveredParts(s, b, recorded);
    forall task: nat ensures TaskNext(all, s, s', task) {
    }
    forall runId: string ensures PendingNext(all, s, s', runId) {
    }
    TracedNext(segments, Deliver(b), s, s');
  }

  lemma DeliverTraced(segments: seq<Segment>, s: Registry, b: Bundle)
    requires Traced(segments, s) && ValidBundle(b) && b.Delivery() !in s.deliveries
    ensures Traced(segments + [Deliver(b)], Do(s, Deliver(b)))
  {
    var (s1, address) := GetOrCreate(s, b.runId);
    DeliveredTraced(segments, s, b, DeliverChain(LedgerAt(s1, address), b));
  }

  lemma FactsTraced(segments: seq<Segment>, s: Registry, task: nat, results: Option<seq<RetrievedResult>>)
    requires Traced(segments, s) && task in s.tasks && s.tasks[task].AwaitFacts?
    ensures Traced(segments + [FactsArrive(task, results)], Do(s, FactsArrive(task, results)))
  {
    var x := FactsArrive(task, results);
    var all, s' := segments + [x], Do(s, x);
    if results.Some? {
      Retrieved(segments, task, s.tasks[task], results.value);
    }
    forall other: nat ensures TaskNext(all, s, s', other) {
    }
    forall runId: string ensures PendingNext(all, s, s', runId) {
    }
    TracedNext(segments, x, s, s');
  }

  lemma AdviceTraced(segments: seq<Segment>, s: Registry, task: nat, advice: Option<Advice>, clock: int)
    requires Traced(segments, s) && task in s.tasks && s.tasks[task].AwaitAdvice?
    ensures Traced(segments + [AdviceArrives(task, advice, clock)], Do(s, AdviceArrives(task, advice, clock)))
  {
    var t := s.tasks[task];
    var r := AfterAdvice(LedgerAt(s, t.ledger), t.bundle, t.facts, advice, clock);
    if r.1.Some? {
      Proposed(segments, LedgerAt(s, t.ledger), task, t, advice, clock);
    }
    AdviceSettles(s, task, advice, clock);
    var x := AdviceArrives(task, advice, clock);
    var all, s' := segments + [x], Do(s, x);
    forall other: nat ensures TaskNext(all, s, s', other) {
    }
    forall runId: string ensures PendingNext(all, s, s', runId) {
    }
    TracedNext(segments, x, s, s');
  }

  function Spent(s: Registry, runId: string, action: Action, clock: int, r: (LedgerState, Flow)): seq<ReserveCall>
    requires runId in s.pending
  {
    if r.1.CallInventory? then [CallOf(s, runId, action, clock)] else []
  }

  lemma ResolvedParts(s: Registry, runId: string, action: Action, clock: int, r: (LedgerState, Flow))
    requires runId in s.pending
    ensures
      var s' := Resolved(s, runId, action, clock, r);
      && s'.pending == s.pending - {runId}
      && s'.calls == s.calls + Spent(s, runId, action, clock, r)
      && (forall task :: task in s'.tasks && !s'.tasks[task].AwaitInventory? ==>
            task in s.tasks && s.tasks[task] == s'.tasks[task])
  {
  }

  // A segment that at most spends a checkpoint, starts a saga and makes a traced call.
  lemma SpentTraced(segments: seq<Segment>, x: Segment, s: Registry, s': Registry, runId: string,
                    spent: seq<ReserveCall>)
    requires Traced(segments, s) && s'.pending == s.pending - {runId} && s'.calls == s.calls + spent
    requires spent == [] || (|spent| == 1 && CallTraced(segments + [x], spent[0]))
    requires forall task :: task in s'.tasks && !s'.tasks[task].AwaitInventory? ==>
               task in s.tasks && s.tasks[task] == s'.tasks[task]
    ensures Traced(segments + [x], s')
  {
    var all := segments + [x];
    forall other: nat ensures TaskNext(all, s, s', other) {
    }
    forall other: string ensures PendingNext(all, s, s', other) {
    }
    TracedNext(segments, x, s, s');
  }

  lemma ResolvedTraced(segments: seq<Segment>, x: Segment, s: Registry, runId: string, action: Action, clock: int,
                       r: (LedgerState, Flow))
    requires Traced(segments, s) && runId in s.pending
    requires r.1.CallInventory? ==> CallTraced(segments + [x], CallOf(s, runId, action, clock))
    ensures Traced(segments + [x], Resolved(s, runId, action, clock, r))
  {
    ResolvedParts(s, runId, action, clock, r);
    SpentTraced(segments, x, s, Resolved(s, runId, action, clock, r), runId, Spent(s, runId, action, clock, r));
  }

  lemma CommandResolves(s: Registry, runId: string, action: Action, clock: int)
    requires runId in s.pending
    ensures Do(s, Command(runId, action, clock))
         == Resolved(s, runId, action, clock, Decision(s, runId, action, clock))
  {
  }

  lemma CommandTraced(segments: seq<Segment>, s: Registry, runId: string, action: Action, clock: int)
    requires s == Run(segments) && Traced(segments, s) && runId in s.pending
    ensures Traced(segments + [Command(runId, action, clock)], Do(s, Command(runId, action, clock)))
  {
    var r := Decision(s, runId, action, clock);
    if r.1.CallInventory? {
      assert PendingTraced(segments, runId, s.pending[runId]);
      Approved(segments, s, runId, action, clock);
    }
    ResolvedTraced(segments, Command(runId, action, clock), s, runId, action, clock, r);
    CommandResolves(s, runId, action, clock);
  }

  lemma ResumedParts(s: Registry, task: nat, r: (LedgerState, Flow))
    requires InSaga(s, task)
    ensures
      var s' := Resume(s, task, r);
      && s'.pending == s.pending && s'.calls == s.calls
      && (forall other :: other in s'.tasks && other != task ==> other in s.tasks && s'.tasks[other] == s.tasks[other])
      && (task in s'.tasks ==> s'.tasks[task].AwaitCarrier? || s'.tasks[task].AwaitRelease?)
  {
  }

  lemma ResumeTraced(segments: seq<Segment>, x: Segment, s: Registry, task: nat, r: (LedgerState, Flow))
    requires Traced(segments, s) && InSaga(s, task)
    ensures Traced(segments + [x], Resume(s, task, r))
  {
    var all, s' := segments + [x], Resume(s, task, r);
    ResumedParts(s, task, r);
    forall other: nat ensures TaskNext(all, s, s', other) {
    }
    forall runId: string ensures PendingNext(all, s, s', runId) {
    }
    TracedNext(segments, x, s, s');
  }

  lemma SagaTraced(segments: seq<Segment>, s: Registry, x: Segment)
    requires Traced(segments, s) && (x.InventoryAnswers? || x.CarrierAnswers? || x.ReleaseAnswers?)
    ensures Traced(segments + [x], Do(s, x))
  {
    TracedStays(segments, x, s);
    if x.task in s.tasks {
      var t := s.tasks[x.task];
      var l := LedgerAt(s, t.ledger);
      if x.InventoryAnswers? && t.AwaitInventory? {
        ResumeTraced(segments, x, s, x.task, AfterInventory(l, t.bundle, t.now, x.ok));
      } else if x.CarrierAnswers? && t.AwaitCarrier? {
        ResumeTraced(segments, x, s, x.task, AfterCarrier(l, t.bundle, t.now, x.ok));
      } else if x.ReleaseAnswers? && t.AwaitRelease? {
        ResumeTraced(segments, x, s, x.task, AfterRelease(l, t.bundle, t.now, x.ok));
      }
    }
  }

  lemma OpenTraced(segments: seq<Segment>, s: Registry, runId: string)
    requires Traced(segments, s)
    ensures Traced(segments + [Open(runId)], Do(s, Open(runId)))
  {
    TracedStays(segments, Open(runId), s);
    var s' := Do(s, Open(runId));
    assert s'.tasks == s.tasks && s'.pending == s.pending && s'.calls == s.calls;
  }

  lemma StepTraced(segments: seq<Segment>, x: Segment)
    requires Traced(segments, Run(segments))
    ensures Traced(segments + [x], Do(Run(segments), x))
  {
    var s := Run(segments);
    TracedStays(segments, x, s);
    match x
    case Open(runId) => OpenTraced(segments, s, runId);
    case Deliver(b) =>
      if ValidBundle(b) && b.Delivery() !in s.deliveries {
        DeliverTraced(segments, s, b);
      }
    case FactsArrive(task, results) =>
      if task in s.tasks && s.tasks[task].AwaitFacts? {
        FactsTraced(segments, s, task, results);
      }
    case AdviceArrives(task, advice, clock) =>
      if task in s.tasks && s.tasks[task].AwaitAdvice? {
        AdviceTraced(segments, s, task, advice, clock);
      }
    case Command(runId, action, clock) =>
      if runId in s.pending {
        CommandTraced(segments, s, runId, action, clock);
      }
    case _ => SagaTraced(segments, s, x);
  }

  lemma {:induction false} EverythingIsTraced(segments: seq<Segment>)
    ensures Traced(segments, Run(segments))
  {
    if segments != [] {
      var init, x := segments[..|segments| - 1], segments[|segments| - 1];
      assert init + [x] == segments;
      EverythingIsTraced(init);
      StepTraced(init, x);
      RunThen(Do, EMPTY, init, x);
    }
  }

  // ------------------------------------------------------------ main result

  // Over every interleaving, each inventory call has its whole history in the run, in this order: a
  // valid bundle was delivered; the retrieval for it found exactly one result about that very source
  // version, which promises at least one, with the cutoff open, no hold and an age of at most five
  // minutes; the proposer advised to reserve; and within five minutes of that a person approved,
  // while the run's ledger still showed that version as current.
  lemma EveryCallHasItsHistory(segments: seq<Segment>, i: nat)
    returns (delivered: nat, retrieved: nat, proposed: nat, approved: nat)
    requires i < |Run(segments).calls|
    ensures delivered < retrieved < proposed < approved < |segments|
    ensures
      var c := Run(segments).calls[i];
      var b := c.pending.bundle;
      && segments[delivered] == Deliver(b) && b.cdcOccurredAt <= b.projectionAppliedAt
      && NonBlank(b.runId) && NonBlank(b.correlationId) && NonBlank(b.eventId) && NonBlank(b.documentId)
      && NonBlank(b.source.system) && NonBlank(b.source.recordId)
      && segments[retrieved].FactsArrive? && segments[retrieved].results.Some?
      && Backed(segments[retrieved].results.value, b)
      && segments[proposed].AdviceArrives? && segments[proposed].task == segments[retrieved].task
      && segments[proposed].advice.Some? && segments[proposed].advice.value.reserve
      && segments[approved].Command? && segments[approved].runId == b.runId && segments[approved].action.Approve?
      && segments[approved].clock <= segments[proposed].clock + 300_000_000
      && b.projectionAppliedAt <= segments[proposed].clock + 300_000_000
      && FoundOn(Run(segments[..approved]), c)
  {
    EverythingIsTraced(segments);
    var c := Run(segments).calls[i];
    assert CallTraced(segments, c);
    var n: nat :| ApprovedAt(segments, n, c);
    var m :| 0 <= m < n && ProposedAt(segments, m, c.pending);
    var k :| 0 <= k < m && RetrievedAt(segments, k, segments[m].task, c.pending.bundle, c.pending.facts);
    var j :| 0 <= j < k && DeliveredAt(segments, j, c.pending.bundle);
    delivered, retrieved, proposed, approved := j, k, m, n;
    GateExactly(segments[k].results.value, c.pending.bundle);
  }
}
