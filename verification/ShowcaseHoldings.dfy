/** What becomes of a reservation the inventory tool confirmed, whoever else writes the ledger meanwhile. */
module ShowcaseHoldings {
  import opened Prelude
  import opened ShowcaseLedger
  import opened ShowcaseSaga
  import opened ShowcaseRegistry

  datatype Tool = InventoryTool | CarrierTool | ReleaseTool

  // The last answer a coroutine holding inventory got, and the ledger it found when it resumed.
  datatype Answer = Answer(tool: Tool, ok: bool, found: LedgerState, now: int)

  datatype Fate = StillInSaga | Confirmed | Released | ReleaseFailed | Stranded

  // Somebody recorded an event stamped later than the decision while the answer was awaited.
  predicate Overtaken(a: Answer) {
    a.found.last.Some? && a.found.last.value > a.now
  }

  // Stranded: inventory is held and neither a carrier nor a release call follows.
  function FateOf(a: Answer): Fate {
    match a.tool
    case InventoryTool => if Overtaken(a) then Stranded else StillInSaga
    case CarrierTool => if a.ok then Confirmed else if Overtaken(a) then Stranded else StillInSaga
    case ReleaseTool => if a.ok then Released else ReleaseFailed
  }

  // The registry together with the last answer of every coroutine whose inventory call succeeded.
  datatype Holdings = Holdings(registry: Registry, answers: map<nat, Answer>)

  function Answered(h: Holdings, segment: Segment): map<nat, Answer> {
    var s := h.registry;
    match segment
    case InventoryAnswers(task, ok) =>
      if ok && task in s.tasks && s.tasks[task].AwaitInventory? then
        h.answers[task := Answer(InventoryTool, ok, LedgerAt(s, s.tasks[task].ledger), s.tasks[task].now)]
      else h.answers
    case CarrierAnswers(task, ok) =>
      if task in s.tasks && s.tasks[task].AwaitCarrier? then
        h.answers[task := Answer(CarrierTool, ok, LedgerAt(s, s.tasks[task].ledger), s.tasks[task].now)]
      else h.answers
    case ReleaseAnswers(task, ok) =>
      if task in s.tasks && s.tasks[task].AwaitRelease? then
        h.answers[task := Answer(ReleaseTool, ok, LedgerAt(s, s.tasks[task].ledger), s.tasks[task].now)]
      else h.answers
    case _ => h.answers
  }

  function Step(h: Holdings, segment: Segment): Holdings {
    Holdings(Do(h.registry, segment), Answered(h, segment))
  }

  function Watch(segments: seq<Segment>): Holdings {
    RunFrom(Step, Holdings(EMPTY, map[]), segments)
  }

  // ------------------------------------------------------------ ledgers only grow

  predicate Extends(before: LedgerState, after: LedgerState) {
    && after.runId == before.runId
    && before.projected <= after.projected
    && (before.last.Some? ==> after.last.Some? && before.last.value <= after.last.value)
  }

  lemma RecordedExtends(s: LedgerState, d: Draft)
    ensures Extends(s, Recorded(s, d))
  {
  }

  lemma ExtendsThrough(a: LedgerState, b: LedgerState, c: LedgerState)
    requires Extends(a, b) && Extends(b, c)
    ensures Extends(a, c)
  {
  }

  lemma {:induction false} RecordAllExtends(s: LedgerState, drafts: seq<Draft>)
    ensures Extends(s, RecordAll(s, drafts).0)
    decreases |drafts|
  {
    if drafts != [] && Recordable(s, drafts[0]) {
      RecordedExtends(s, drafts[0]);
      RecordAllExtends(Recorded(s, drafts[0]), drafts[1..]);
    }
  }

  lemma ClosingExtends(s: LedgerState, d: Draft)
    ensures Extends(s, Closing(s, d).0)
  {
    RecordedExtends(s, d);
  }

  lemma CompensateExtends(s: LedgerState, b: Bundle, now: int)
    ensures Extends(s, Compensate(s, b, now).0)
  {
    RecordedExtends(s, TransitionDraft(b, Compensating, "release_inventory", now));
  }

  lemma ResolveStartExtends(s: LedgerState, p: Pending, action: Action, clock: int)
    ensures Extends(s, ResolveStart(s, p, action, clock).0)
  {
    var now, b := ResolveTime(p, clock), p.bundle;
    ClosingExtends(s, ApprovalDraft(b, Expired, now, "source_superseded"));
    ClosingExtends(s, ApprovalDraft(b, Expired, now, "approval_expired"));
    ClosingExtends(s, ApprovalDraft(b, Rejected, now, "human_rejected"));
    RecordAllExtends(s, StartDrafts(b, now));
  }

  // ------------------------------------------------------------ what a saga's ledger allows

  // The decision was recorded on this ledger; others may have recorded since.
  predicate Ready(l: LedgerState, b: Bundle, now: int) {
    && NonBlank(l.runId) && NonBlank(b.correlationId) && b.source in l.projected
    && l.last.Some? && now <= l.last.value
  }

  lemma ReadyLater(l: LedgerState, after: LedgerState, b: Bundle, now: int)
    requires Ready(l, b, now) && Extends(l, after)
    ensures Ready(after, b, now)
  {
  }

  lemma StartIsReady(s: LedgerState, p: Pending, action: Action, clock: int)
    ensures var r := ResolveStart(s, p, action, clock);
      r.1.CallInventory? ==> Ready(r.0, p.bundle, ResolveTime(p, clock))
  {
    var now := ResolveTime(p, clock);
    if IsCurrent(s, p.bundle.source) {
      ApproveStarts(s, p, now);
    }
  }

  // A transition of the saga can be recorded exactly while nothing later-stamped was recorded.
  lemma RecordableExactly(l: LedgerState, b: Bundle, status: Status, transition: string, now: int)
    requires Ready(l, b, now) && DisplaySafe(transition)
    ensures Recordable(l, TransitionDraft(b, status, transition, now)) <==> l.last.value <= now
  {
    if l.last.value == now {
      TransitionRecordable(l, b, status, transition, now);
    }
  }

  lemma AfterInventoryExactly(l: LedgerState, b: Bundle, now: int)
    requires Ready(l, b, now)
    ensures var r := AfterInventory(l, b, now, true);
      && Extends(l, r.0)
      && r.1 == (if l.last.value > now then Raised else CallCarrier)
  {
    WorkflowIsSafe();
    RecordableExactly(l, b, Completed, "reserve_inventory", now);
    if l.last.value == now {
      TransitionRecordable(l, b, Completed, "reserve_inventory", now);
      var held := Recorded(l, TransitionDraft(b, Completed, "reserve_inventory", now));
      RecordedExtends(l, TransitionDraft(b, Completed, "reserve_inventory", now));
      TransitionRecordable(held, b, Started, "reserve_carrier", now);
      RecordedExtends(held, TransitionDraft(b, Started, "reserve_carrier", now));
      ExtendsThrough(l, held, Recorded(held, TransitionDraft(b, Started, "reserve_carrier", now)));
    }
  }

  lemma AfterCarrierExactly(l: LedgerState, b: Bundle, now: int, ok: bool)
    requires Ready(l, b, now)
    ensures var r := AfterCarrier(l, b, now, ok);
      && Extends(l, r.0)
      && (ok ==> r.1.Returned? || r.1.Raised?)
      && (!ok ==> r.1 == if l.last.value > now then Raised else CallRelease)
  {
    WorkflowIsSafe();
    ClosingExtends(l, TransitionDraft(b, Completed, "reserve_carrier", now));
    CompensateExtends(l, b, now);
    RecordableExactly(l, b, Compensating, "release_inventory", now);
  }

  // ------------------------------------------------------------ segments that answer no tool

  predicate Reserving(t: Task) {
    t.AwaitInventory? || t.AwaitCarrier? || t.AwaitRelease?
  }

  predicate LedgersExtend(s: Registry, s': Registry) {
    forall address :: address in s.ledgers ==>
      address in s'.ledgers && Extends(s.ledgers[address], s'.ledgers[address])
  }

  // Sagas under way are left alone; a new coroutine has a new id, and if it reserves it is ready.
  predicate Quiet(s: Registry, s': Registry) {
    && s.nextId <= s'.nextId && LedgersExtend(s, s')
    && (forall id :: id in s.tasks && Reserving(s.tasks[id]) ==> id in s'.tasks && s'.tasks[id] == s.tasks[id])
    && (forall id :: id in s'.tasks && id in s.tasks ==> Reserving(s'.tasks[id]) == Reserving(s.tasks[id]))
    && (forall id :: id in s'.tasks && id !in s.tasks ==>
          id >= s.nextId && (Reserving(s'.tasks[id]) ==> s'.tasks[id].AwaitInventory? && TaskReady(s', s'.tasks[id])))
  }

  predicate TaskReady(s: Registry, t: Task) {
    Reserving(t) ==> t.ledger in s.ledgers && Ready(s.ledgers[t.ledger], t.bundle, t.now)
  }

  lemma OpenQuiet(s: Registry, runId: string)
    requires IdsBounded(s)
    ensures Quiet(s, GetOrCreate(s, runId).0)
  {
  }

  lemma SettleQuiet(s: Registry, task: nat, r: (LedgerState, Option<Pending>))
    requires Inv(s) && task in s.tasks && !Reserving(s.tasks[task])
    requires Extends(LedgerAt(s, s.tasks[task].ledger), r.0)
    ensures Quiet(s, Settle(s, task, r))
  {
  }

  // A new coroutine that reserves, after its ledger was written.
  lemma SpawnQuiet(s: Registry, address: nat, l: LedgerState, calls: seq<ReserveCall>, t: Task)
    requires IdsBounded(s) && address in s.ledgers && Extends(s.ledgers[address], l)
    requires t.AwaitInventory? && t.ledger == address && Ready(l, t.bundle, t.now)
    ensures Quiet(s, Spawn(WithLedger(s, address, l).(calls := calls), t))
  {
  }

  lemma QuietThrough(a: Registry, b: Registry, c: Registry)
    requires IdsBounded(a) && Quiet(a, b) && Quiet(b, c) && a.tasks == b.tasks
    ensures Quiet(a, c)
  {
    forall address | address in a.ledgers
      ensures address in c.ledgers && Extends(a.ledgers[address], c.ledgers[address])
    {
      ExtendsThrough(a.ledgers[address], b.ledgers[address], c.ledgers[address]);
    }
  }

  lemma WrittenQuiet(s: Registry, address: nat, l: LedgerState)
    requires address in s.ledgers && Extends(s.ledgers[address], l)
    ensures Quiet(s, WithLedger(s, address, l))
  {
  }

  lemma DeliveredQuiet(s: Registry, b: Bundle, recorded: (LedgerState, bool))
    requires Inv(s)
    requires var (s1, address) := GetOrCreate(s, b.runId); Extends(LedgerAt(s1, address), recorded.0)
    ensures Quiet(s, Delivered(s, b, recorded))
  {
    OpenKeeps(s, b.runId);
    OpenQuiet(s, b.runId);
    var (s1, address) := GetOrCreate(s, b.runId);
    if recorded.1 {
      MarkedQuiet(s1, address, recorded.0, s1.deliveries + {b.Delivery()}, AwaitFacts(b, address));
    } else {
      WrittenQuiet(s1, address, recorded.0);
    }
    QuietThrough(s, s1, Delivered(s, b, recorded));
  }

  lemma MarkedQuiet(s: Registry, address: nat, l: LedgerState, deliveries: set<string>, t: Task)
    requires IdsBounded(s) && address in s.ledgers && Extends(s.ledgers[address], l) && !Reserving(t)
    ensures Quiet(s, Spawn(WithLedger(s, address, l).(deliveries := deliveries), t))
  {
  }

  lemma PoppedQuiet(s: Registry, runId: string)
    requires Inv(s)
    ensures var (s1, address) := Popped(s, runId);
      IdsBounded(s1) && address in s1.ledgers && s1.tasks == s.tasks && Quiet(s, s1)
  {
    var s0 := s.(pending := s.pending - {runId});
    forall token, d | Holds(s0, token, d) ensures Holds(s, token, d) {
    }
    OpenKeeps(s0, runId);
    OpenQuiet(s0, runId);
  }

  lemma ResolvedQuiet(s: Registry, runId: string, action: Action, clock: int, r: (LedgerState, Flow))
    requires Inv(s) && runId in s.pending
    requires var (s1, address) := Popped(s, runId); Extends(LedgerAt(s1, address), r.0)
    requires r.1.CallInventory? ==>
      Ready(r.0, s.pending[runId].bundle, ResolveTime(s.pending[runId], clock))
    ensures Quiet(s, Resolved(s, runId, action, clock, r))
  {
    PoppedQuiet(s, runId);
    var p, now := s.pending[runId], ResolveTime(s.pending[runId], clock);
    var (s1, address) := Popped(s, runId);
    if r.1.CallInventory? {
      var calls := s1.calls + [ReserveCall(p, action, now, LedgerAt(s1, address))];
      SpawnQuiet(s1, address, r.0, calls, AwaitInventory(p.bundle, address, now));
    } else {
      WrittenQuiet(s1, address, r.0);
    }
    QuietThrough(s, s1, Resolved(s, runId, action, clock, r));
  }

  predicate AnswersTool(segment: Segment) {
    segment.InventoryAnswers? || segment.CarrierAnswers? || segment.ReleaseAnswers?
  }

  lemma ProcessQuiet(s: Registry, segment: Segment)
    requires Inv(s) && (segment.FactsArrive? || segment.AdviceArrives?)
    ensures Quiet(s, Do(s, segment))
  {
    if segment.task in s.tasks {
      var t := s.tasks[segment.task];
      var l := LedgerAt(s, t.ledger);
      if segment.FactsArrive? && t.AwaitFacts? {
        if segment.results.None? {
          RecordAllExtends(l, BlockDrafts(t.bundle, "context_unavailable"));
          SettleQuiet(s, segment.task, (RecordAll(l, BlockDrafts(t.bundle, "context_unavailable")).0, None));
        }
      } else if segment.AdviceArrives? && t.AwaitAdvice? {
        RecordAllExtends(l, AdviceDrafts(t.bundle, t.facts, segment.advice).0);
        SettleQuiet(s, segment.task, AfterAdvice(l, t.bundle, t.facts, segment.advice, segment.clock));
      }
    }
  }

  lemma CommandQuiet(s: Registry, runId: string, action: Action, clock: int)
    requires Inv(s)
    ensures Quiet(s, CommandStep(s, runId, action, clock))
  {
    if runId in s.pending {
      var (s1, address) := Popped(s, runId);
      var p := s.pending[runId];
      ResolveStartExtends(LedgerAt(s1, address), p, action, clock);
      StartIsReady(LedgerAt(s1, address), p, action, clock);
      ResolvedQuiet(s, runId, action, clock, ResolveStart(LedgerAt(s1, address), p, action, clock));
    }
  }

  lemma OthersQuiet(s: Registry, segment: Segment)
    requires Inv(s) && !AnswersTool(segment)
    ensures Quiet(s, Do(s, segment))
  {
    match segment
    case Open(runId) => OpenQuiet(s, runId);
    case Deliver(b) =>
      var (s1, address) := GetOrCreate(s, b.runId);
      RecordAllExtends(LedgerAt(s1, address), ChainDrafts(b));
      if ValidBundle(b) && b.Delivery() !in s.deliveries {
        DeliveredQuiet(s, b, DeliverChain(LedgerAt(s1, address), b));
      }
    case FactsArrive(task, results) => ProcessQuiet(s, segment);
    case AdviceArrives(task, advice, clock) => ProcessQuiet(s, segment);
    case Command(runId, action, clock) => CommandQuiet(s, runId, action, clock);
  }

  // ------------------------------------------------------------ the invariant

  predicate SagasReady(s: Registry) {
    forall task :: task in s.tasks ==> TaskReady(s, s.tasks[task])
  }

  // A coroutine that was answered is suspended exactly if its last answer left it in the saga, and
  // then at the call that answer leads to; no other coroutine is past its inventory call.
  predicate Tracked(h: Holdings, task: nat) {
    var s := h.registry;
    && (task in h.answers ==>
          && task < s.nextId
          && (task in s.tasks <==> FateOf(h.answers[task]).StillInSaga?)
          && (task in s.tasks ==>
                if h.answers[task].tool.InventoryTool? then s.tasks[task].AwaitCarrier?
                else s.tasks[task].AwaitRelease?))
    && (task in s.tasks && task !in h.answers ==> !s.tasks[task].AwaitCarrier? && !s.tasks[task].AwaitRelease?)
  }

  ghost predicate AllTracked(h: Holdings) {
    forall task: nat :: Tracked(h, task)
  }

  ghost predicate HoldInv(h: Holdings) {
    Inv(h.registry) && SagasReady(h.registry) && AllTracked(h)
  }

  lemma QuietKeepsReady(s: Registry, s': Registry)
    requires SagasReady(s) && Quiet(s, s')
    ensures SagasReady(s')
  {
    forall task | task in s'.tasks ensures TaskReady(s', s'.tasks[task]) {
      if task in s.tasks && Reserving(s.tasks[task]) {
        var t := s.tasks[task];
        assert TaskReady(s, t);
        ReadyLater(s.ledgers[t.ledger], s'.ledgers[t.ledger], t.bundle, t.now);
      }
    }
  }

  lemma QuietKeepsTracked(h: Holdings, s': Registry, task: nat)
    requires Tracked(h, task) && Quiet(h.registry, s')
    ensures Tracked(Holdings(s', h.answers), task)
  {
  }

  // A coroutine that resumes touches its own ledger and itself, nothing else.
  lemma ResumeKeepsReady(s: Registry, task: nat, r: (LedgerState, Flow))
    requires SagasReady(s) && InSaga(s, task) && Extends(LedgerAt(s, s.tasks[task].ledger), r.0)
    ensures SagasReady(Resume(s, task, r))
  {
    var s', mine := Resume(s, task, r), s.tasks[task];
    assert TaskReady(s, mine);
    forall other | other in s'.tasks ensures TaskReady(s', s'.tasks[other]) {
      var t := s.tasks[other];
      assert TaskReady(s, t);
      if Reserving(t) {
        if t.ledger == mine.ledger {
          ReadyLater(s.ledgers[t.ledger], r.0, t.bundle, t.now);
        }
      }
    }
  }

  lemma ResumeKeepsTracked(h: Holdings, task: nat, r: (LedgerState, Flow), a: Answer, other: nat)
    requires InSaga(h.registry, task) && task < h.registry.nextId && Tracked(h, other)
    requires FateOf(a).StillInSaga? <==> r.1.CallCarrier? || r.1.CallRelease?
    requires r.1.CallCarrier? ==> a.tool.InventoryTool?
    requires r.1.CallRelease? ==> a.tool.CarrierTool?
    ensures Tracked(Holdings(Resume(h.registry, task, r), h.answers[task := a]), other)
  {
  }

  // A refused inventory call ends the coroutine; it holds nothing.
  lemma RefusedKeepsTracked(h: Holdings, task: nat, r: (LedgerState, Flow), other: nat)
    requires InSaga(h.registry, task) && task !in h.answers && r.1.Raised? && Tracked(h, other)
    ensures Tracked(Holdings(Resume(h.registry, task, r), h.answers), other)
  {
  }

  // One answered coroutine, given what its segment gave.
  lemma AnswerKeeps(h: Holdings, task: nat, r: (LedgerState, Flow), a: Answer)
    requires IdsBounded(h.registry) && SagasReady(h.registry) && AllTracked(h)
    requires InSaga(h.registry, task) && Extends(LedgerAt(h.registry, h.registry.tasks[task].ledger), r.0)
    requires FateOf(a).StillInSaga? <==> r.1.CallCarrier? || r.1.CallRelease?
    requires r.1.CallCarrier? ==> a.tool.InventoryTool?
    requires r.1.CallRelease? ==> a.tool.CarrierTool?
    ensures SagasReady(Resume(h.registry, task, r))
    ensures AllTracked(Holdings(Resume(h.registry, task, r), h.answers[task := a]))
  {
    ResumeKeepsReady(h.registry, task, r);
    var h' := Holdings(Resume(h.registry, task, r), h.answers[task := a]);
    forall other: nat ensures Tracked(h', other) {
      ResumeKeepsTracked(h, task, r, a, other);
    }
  }

  lemma InventoryKeeps(h: Holdings, task: nat, ok: bool)
    requires IdsBounded(h.registry) && SagasReady(h.registry) && AllTracked(h)
    requires task in h.registry.tasks && h.registry.tasks[task].AwaitInventory?
    ensures
      var t := h.registry.tasks[task];
      var l := LedgerAt(h.registry, t.ledger);
      var s' := Resume(h.registry, task, AfterInventory(l, t.bundle, t.now, ok));
      var answers := if ok then h.answers[task := Answer(InventoryTool, ok, l, t.now)] else h.answers;
      SagasReady(s') && AllTracked(Holdings(s', answers))
  {
    var s, t := h.registry, h.registry.tasks[task];
    var l := LedgerAt(s, t.ledger);
    assert TaskReady(s, t) && Tracked(h, task);
    var r := AfterInventory(l, t.bundle, t.now, ok);
    if ok {
      AfterInventoryExactly(l, t.bundle, t.now);
      AnswerKeeps(h, task, r, Answer(InventoryTool, ok, l, t.now));
    } else {
      assert r == (l, Raised);
      ResumeKeepsReady(s, task, r);
      var h' := Holdings(Resume(s, task, r), h.answers);
      forall other: nat ensures Tracked(h', other) {
        RefusedKeepsTracked(h, task, r, other);
      }
    }
  }

  lemma CarrierKeeps(h: Holdings, task: nat, ok: bool)
    requires IdsBounded(h.registry) && SagasReady(h.registry) && AllTracked(h)
    requires task in h.registry.tasks && h.registry.tasks[task].AwaitCarrier?
    ensures
      var t := h.registry.tasks[task];
      var l := LedgerAt(h.registry, t.ledger);
      var s' := Resume(h.registry, task, AfterCarrier(l, t.bundle, t.now, ok));
      SagasReady(s') && AllTracked(Holdings(s', h.answers[task := Answer(CarrierTool, ok, l, t.now)]))
  {
    var s, t := h.registry, h.registry.tasks[task];
    var l := LedgerAt(s, t.ledger);
    assert TaskReady(s, t);
    AfterCarrierExactly(l, t.bundle, t.now, ok);
    AnswerKeeps(h, task, AfterCarrier(l, t.bundle, t.now, ok), Answer(CarrierTool, ok, l, t.now));
  }

  lemma ReleaseKeeps(h: Holdings, task: nat, ok: bool)
    requires IdsBounded(h.registry) && SagasReady(h.registry) && AllTracked(h)
    requires task in h.registry.tasks && h.registry.tasks[task].AwaitRelease?
    ensures
      var t := h.registry.tasks[task];
      var l := LedgerAt(h.registry, t.ledger);
      var s' := Resume(h.registry, task, AfterRelease(l, t.bundle, t.now, ok));
      SagasReady(s') && AllTracked(Holdings(s', h.answers[task := Answer(ReleaseTool, ok, l, t.now)]))
  {
    var s, t := h.registry, h.registry.tasks[task];
    var l := LedgerAt(s, t.ledger);
    ClosingExtends(l, TransitionDraft(t.bundle, if ok then Compensated else Failed, "release_inventory", t.now));
    AnswerKeeps(h, task, AfterRelease(l, t.bundle, t.now, ok), Answer(ReleaseTool, ok, l, t.now));
  }

  // What a tool's answer does to the pair, spelled out per tool.
  lemma AnswerStep(h: Holdings, segment: Segment)
    requires AnswersTool(segment) && segment.task in h.registry.tasks
    ensures
      var s, task, ok := h.registry, segment.task, segment.ok;
      var t := s.tasks[task];
      var l := LedgerAt(s, t.ledger);
      && (segment.InventoryAnswers? && t.AwaitInventory? ==>
            Step(h, segment) == Holdings(
              Resume(s, task, AfterInventory(l, t.bundle, t.now, ok)),
              if ok then h.answers[task := Answer(InventoryTool, ok, l, t.now)] else h.answers))
      && (segment.CarrierAnswers? && t.AwaitCarrier? ==>
            Step(h, segment) == Holdings(
              Resume(s, task, AfterCarrier(l, t.bundle, t.now, ok)),
              h.answers[task := Answer(CarrierTool, ok, l, t.now)]))
      && (segment.ReleaseAnswers? && t.AwaitRelease? ==>
            Step(h, segment) == Holdings(
              Resume(s, task, AfterRelease(l, t.bundle, t.now, ok)),
              h.answers[task := Answer(ReleaseTool, ok, l, t.now)]))
  {
  }

  lemma OtherStep(h: Holdings, segment: Segment)
    requires IdsBounded(h.registry) && SagasReady(h.registry) && AllTracked(h)
    requires Quiet(h.registry, Do(h.registry, segment)) && Answered(h, segment) == h.answers
    ensures SagasReady(Do(h.registry, segment)) && AllTracked(Step(h, segment))
  {
    QuietKeepsReady(h.registry, Do(h.registry, segment));
    forall task: nat ensures Tracked(Step(h, segment), task) {
      QuietKeepsTracked(h, Do(h.registry, segment), task);
    }
  }

  lemma StepKeeps(h: Holdings, segment: Segment)
    requires HoldInv(h)
    ensures HoldInv(Step(h, segment))
  {
    var s := h.registry;
    InvStep(s, segment);
    if !AnswersTool(segment) {
      OthersQuiet(s, segment);
      OtherStep(h, segment);
    } else if segment.task in s.tasks {
      AnswerStep(h, segment);
      if segment.InventoryAnswers? && s.tasks[segment.task].AwaitInventory? {
        InventoryKeeps(h, segment.task, segment.ok);
      } else if segment.CarrierAnswers? && s.tasks[segment.task].AwaitCarrier? {
        CarrierKeeps(h, segment.task, segment.ok);
      } else if segment.ReleaseAnswers? && s.tasks[segment.task].AwaitRelease? {
        ReleaseKeeps(h, segment.task, segment.ok);
      }
    }
  }

  lemma HoldInvHolds(segments: seq<Segment>)
    ensures HoldInv(Watch(segments)) && Watch(segments).registry == Run(segments)
  {
    var inv := (h: Holdings) => HoldInv(h);
    forall h: Holdings, segment | inv(h) ensures inv(Step(h, segment)) {
      StepKeeps(h, segment);
    }
    RunInvariant(Step, inv, Holdings(EMPTY, map[]), segments);
    WatchFollows(segments);
  }

  lemma {:induction false} WatchFollows(segments: seq<Segment>)
    ensures Watch(segments).registry == Run(segments)
  {
    if segments != [] {
      WatchFollows(segments[..|segments| - 1]);
    }
  }

  // ------------------------------------------------------------ main result

  // Over every interleaving, a reservation the inventory tool confirmed is still in its saga,
  // confirmed by the carrier, released, held after a failed release, or stranded: held with no
  // further call. After the inventory answer, and after a carrier failure, the coroutine is over
  // exactly when somebody had recorded a later-stamped event on its ledger during that call.
  lemma HeldReservations(segments: seq<Segment>, task: nat)
    requires task in Watch(segments).answers
    ensures
      var h := Watch(segments);
      var a, tasks := h.answers[task], h.registry.tasks;
      && h.registry == Run(segments)
      && (if a.tool.ReleaseTool? || (a.tool.CarrierTool? && a.ok) then task !in tasks
          else task !in tasks <==> a.found.last.Some? && a.found.last.value > a.now)
      && (task in tasks ==>
            if a.tool.InventoryTool? then tasks[task].AwaitCarrier?
            else a.tool.CarrierTool? && tasks[task].AwaitRelease?)
      && (FateOf(a) == StillInSaga <==> task in tasks)
      && (FateOf(a) == Confirmed <==> a.tool.CarrierTool? && a.ok)
      && (FateOf(a) == Released <==> a.tool.ReleaseTool? && a.ok)
      && (FateOf(a) == ReleaseFailed <==> a.tool.ReleaseTool? && !a.ok)
      && (FateOf(a) == Stranded <==>
            task !in tasks && (a.tool.InventoryTool? || (a.tool.CarrierTool? && !a.ok)))
  {
    HoldInvHolds(segments);
    assert Tracked(Watch(segments), task);
  }

  // A later-stamped delivery for the same run overtakes a call that is being awaited.
  lemma DeliveryOvertakes(s: Registry, task: nat, b: Bundle)
    requires Inv(s) && SagasReady(s) && task in s.tasks && s.tasks[task].AwaitInventory?
    requires Find(s.runs, b.runId) == Some(s.tasks[task].ledger)
    requires ValidBundle(b) && b.Delivery() !in s.deliveries && b.cdcOccurredAt > s.tasks[task].now
    requires Recordable(LedgerAt(s, s.tasks[task].ledger), SourceDraft(b))
    ensures
      var s', t := Do(s, Deliver(b)), s.tasks[task];
      && task in s'.tasks && s'.tasks[task] == t
      && LedgerAt(s', t.ledger).last.Some? && LedgerAt(s', t.ledger).last.value > t.now
  {
    var t := s.tasks[task];
    var l, d := LedgerAt(s, t.ledger), SourceDraft(b);
    assert TaskReady(s, t);
    RecordThree(l, d, ReceiptDraft(b), ProjectionDraft(b));
    RecordAllExtends(Recorded(l, d), [ReceiptDraft(b), ProjectionDraft(b)]);
    OthersQuiet(s, Deliver(b));
    DeliveredLedger(s, b, t.ledger);
  }

  lemma DeliveredLedger(s: Registry, b: Bundle, address: nat)
    requires Find(s.runs, b.runId) == Some(address) && ValidBundle(b) && b.Delivery() !in s.deliveries
    ensures LedgerAt(Do(s, Deliver(b)), address) == DeliverChain(LedgerAt(s, address), b).0
  {
    var recorded := DeliverChain(LedgerAt(s, address), b);
    assert Do(s, Deliver(b)) == Delivered(s, b, recorded);
  }

  // It does happen: then the confirmed reservation's next record raises before any other tool is
  // called.
  lemma LaterDeliveryStrands(segments: seq<Segment>, task: nat, b: Bundle)
    requires
      var s := Run(segments);
      && task in s.tasks && s.tasks[task].AwaitInventory? && Find(s.runs, b.runId) == Some(s.tasks[task].ledger)
      && ValidBundle(b) && b.Delivery() !in s.deliveries && b.cdcOccurredAt > s.tasks[task].now
      && Recordable(LedgerAt(s, s.tasks[task].ledger), SourceDraft(b))
    ensures
      var h := Watch(segments + [Deliver(b)] + [InventoryAnswers(task, true)]);
      task in h.answers && FateOf(h.answers[task]) == Stranded && task !in h.registry.tasks
  {
    HoldInvHolds(segments);
    DeliveryOvertakes(Run(segments), task, b);
    WatchThen(segments, Deliver(b));
    WatchThen(segments + [Deliver(b)], InventoryAnswers(task, true));
    HeldReservations(segments + [Deliver(b)] + [InventoryAnswers(task, true)], task);
  }

  lemma WatchThen(segments: seq<Segment>, segment: Segment)
    ensures Watch(segments + [segment]) == Step(Watch(segments), segment)
  {
    RunThen(Step, Holdings(EMPTY, map[]), segments, segment);
  }
}
