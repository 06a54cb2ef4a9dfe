/** The run registry under every interleaving of deliveries and commands that switches at awaits. */
module ShowcaseRegistry {
  import opened Prelude
  import opened ShowcaseLedger
  import opened ShowcaseSaga

  const MAX_RUNS := 32
  const MAX_EVENTS := 250

  // A coroutine suspended at an await. It keeps the ledger it was given, even after its run has
  // been evicted from the registry.
  datatype Task =
    | AwaitFacts(bundle: Bundle, ledger: nat)
    | AwaitAdvice(bundle: Bundle, ledger: nat, facts: seq<Fact>)
    | AwaitInventory(bundle: Bundle, ledger: nat, now: int)
    | AwaitCarrier(bundle: Bundle, ledger: nat, now: int)
    | AwaitRelease(bundle: Bundle, ledger: nat, now: int)

  // One reserve_inventory call, with what resolve saw when it decided to make it.
  datatype ReserveCall = ReserveCall(pending: Pending, action: Action, now: int, found: LedgerState)

  datatype Slot = Slot(runId: string, ledger: nat)

  // ledgers is the heap of ledger objects; runs is the registry's dict in insertion order.
  datatype Registry = Registry(
    ledgers: map<nat, LedgerState>, runs: seq<Slot>, deliveries: set<string>, pending: map<string, Pending>,
    tasks: map<nat, Task>, calls: seq<ReserveCall>, nextId: nat)

  const EMPTY := Registry(map[], [], {}, map[], map[], [], 0)

  // Each one is an uninterrupted segment, with what the environment answers in it.
  datatype Segment =
    | Open(runId: string)
    | Deliver(bundle: Bundle)
    | FactsArrive(task: nat, results: Option<seq<RetrievedResult>>)
    | AdviceArrives(task: nat, advice: Option<Advice>, clock: int)
    | Command(runId: string, action: Action, clock: int)
    | InventoryAnswers(task: nat, ok: bool)
    | CarrierAnswers(task: nat, ok: bool)
    | ReleaseAnswers(task: nat, ok: bool)

  const MAX_RUN_ID_LENGTH := 120

  predicate SafeRunChar(c: char) {
    'a' <= c <= 'z' || 'A' <= c <= 'Z' || '0' <= c <= '9' || c in "._-"
  }

  // The run ids the HTTP routes let through.
  predicate IsRunId(runId: string) {
    && 0 < |runId| <= MAX_RUN_ID_LENGTH
    && forall i :: 0 <= i < |runId| ==> SafeRunChar(runId[i])
  }

  function Find(runs: seq<Slot>, runId: string): Option<nat> {
    if runs == [] then None
    else if runs[0].runId == runId then Some(runs[0].ledger)
    else Find(runs[1..], runId)
  }

  function GetOrCreate(s: Registry, runId: string): (Registry, nat) {
    match Find(s.runs, runId)
    case Some(address) => (s, address)
    case None =>
      var kept := if |s.runs| >= MAX_RUNS then s.runs[1..] else s.runs;
      (s.(runs := kept + [Slot(runId, s.nextId)],
          ledgers := s.ledgers[s.nextId := Fresh(runId, MAX_EVENTS)],
          nextId := s.nextId + 1),
       s.nextId)
  }

  // Every address a reachable registry asks for exists (IdsBounded).
  function LedgerAt(s: Registry, address: nat): LedgerState {
    if address in s.ledgers then s.ledgers[address] else Fresh("", MAX_EVENTS)
  }

  function WithLedger(s: Registry, address: nat, ledger: LedgerState): Registry {
    s.(ledgers := s.ledgers[address := ledger])
  }

  function Spawn(s: Registry, t: Task): Registry {
    s.(tasks := s.tasks[s.nextId := t], nextId := s.nextId + 1)
  }

  function EndTask(s: Registry, task: nat): Registry {
    s.(tasks := s.tasks - {task})
  }

  // apply_cdc_bundle up to its await, given what recording the chain on the run's ledger gave.
  function Delivered(s: Registry, b: Bundle, recorded: (LedgerState, bool)): Registry {
    var (s1, address) := GetOrCreate(s, b.runId);
    var s2 := WithLedger(s1, address, recorded.0);
    if recorded.1 then Spawn(s2.(deliveries := s2.deliveries + {b.Delivery()}), AwaitFacts(b, address)) else s2
  }

  function DeliverStep(s: Registry, b: Bundle): Registry {
    if !ValidBundle(b) || b.Delivery() in s.deliveries then s
    else
      var (s1, address) := GetOrCreate(s, b.runId);
      Delivered(s, b, DeliverChain(LedgerAt(s1, address), b))
  }

  // process has ended: its ledger is written and a checkpoint may replace the run's pending one.
  function Settle(s: Registry, task: nat, r: (LedgerState, Option<Pending>)): Registry
    requires task in s.tasks
  {
    var t := s.tasks[task];
    var s1 := EndTask(WithLedger(s, t.ledger, r.0), task);
    if r.1.None? then s1 else s1.(pending := s1.pending[t.bundle.runId := r.1.value])
  }

  function FactsStep(s: Registry, task: nat, results: Option<seq<RetrievedResult>>): Registry {
    if task !in s.tasks || !s.tasks[task].AwaitFacts? then s
    else
      var t := s.tasks[task];
      match results
      case None =>
        Settle(s, task, (RecordAll(LedgerAt(s, t.ledger), BlockDrafts(t.bundle, "context_unavailable")).0, None))
      case Some(found) =>
        s.(tasks := s.tasks[task := AwaitAdvice(t.bundle, t.ledger, MatchingFacts(found, t.bundle))])
  }

  function AdviceStep(s: Registry, task: nat, advice: Option<Advice>, clock: int): Registry {
    if task !in s.tasks || !s.tasks[task].AwaitAdvice? then s
    else
      var t := s.tasks[task];
      Settle(s, task, AfterAdvice(LedgerAt(s, t.ledger), t.bundle, t.facts, advice, clock))
  }

  // The registry and ledger a command resolves its pending checkpoint on.
  function Popped(s: Registry, runId: string): (Registry, nat) {
    GetOrCreate(s.(pending := s.pending - {runId}), runId)
  }

  // A command up to its first tool call, given what resolve decided.
  function Resolved(s: Registry, runId: string, action: Action, clock: int, r: (LedgerState, Flow)): Registry
    requires runId in s.pending
  {
    var p := s.pending[runId];
    var (s1, address) := Popped(s, runId);
    var s2 := WithLedger(s1, address, r.0);
    if r.1.CallInventory? then
      var now := ResolveTime(p, clock);
      Spawn(s2.(calls := s2.calls + [ReserveCall(p, action, now, LedgerAt(s1, address))]),
            AwaitInventory(p.bundle, address, now))
    else s2
  }

  function CommandStep(s: Registry, runId: string, action: Action, clock: int): Registry {
    if runId !in s.pending then s
    else
      var (s1, address) := Popped(s, runId);
      Resolved(s, runId, action, clock, ResolveStart(LedgerAt(s1, address), s.pending[runId], action, clock))
  }

  predicate InSaga(s: Registry, task: nat) {
    task in s.tasks && (s.tasks[task].AwaitInventory? || s.tasks[task].AwaitCarrier? || s.tasks[task].AwaitRelease?)
  }

  // A saga coroutine resumes and either ends or suspends at its next tool call.
  function Resume(s: Registry, task: nat, r: (LedgerState, Flow)): Registry
    requires InSaga(s, task)
  {
    var t := s.tasks[task];
    var s1 := WithLedger(s, t.ledger, r.0);
    match r.1
    case CallCarrier => s1.(tasks := s1.tasks[task := AwaitCarrier(t.bundle, t.ledger, t.now)])
    case CallRelease => s1.(tasks := s1.tasks[task := AwaitRelease(t.bundle, t.ledger, t.now)])
    case _ => EndTask(s1, task)
  }

  function Do(s: Registry, segment: Segment): Registry {
    match segment
    case Open(runId) => if IsRunId(runId) then GetOrCreate(s, runId).0 else s
    case Deliver(b) => DeliverStep(s, b)
    case FactsArrive(task, results) => FactsStep(s, task, results)
    case AdviceArrives(task, advice, clock) => AdviceStep(s, task, advice, clock)
    case Command(runId, action, clock) => CommandStep(s, runId, action, clock)
    case InventoryAnswers(task, ok) =>
      if task in s.tasks && s.tasks[task].AwaitInventory? then
        var t := s.tasks[task];
        Resume(s, task, AfterInventory(LedgerAt(s, t.ledger), t.bundle, t.now, ok))
      else s
    case CarrierAnswers(task, ok) =>
      if task in s.tasks && s.tasks[task].AwaitCarrier? then
        var t := s.tasks[task];
        Resume(s, task, AfterCarrier(LedgerAt(s, t.ledger), t.bundle, t.now, ok))
      else s
    case ReleaseAnswers(task, ok) =>
      if task in s.tasks && s.tasks[task].AwaitRelease? then
        var t := s.tasks[task];
        Resume(s, task, AfterRelease(LedgerAt(s, t.ledger), t.bundle, t.now, ok))
      else s
  }

  function Run(segments: seq<Segment>): Registry {
    RunFrom(Do, EMPTY, segments)
  }

  // ------------------------------------------------------------ who may still reserve

  // Where the right to reserve for a delivery can be.
  datatype Token = InTask(task: nat) | InPending(runId: string) | InCall(index: nat)

  ghost predicate Holds(s: Registry, token: Token, delivery: string) {
    match token
    case InTask(task) =>
      && task in s.tasks && (s.tasks[task].AwaitFacts? || s.tasks[task].AwaitAdvice?)
      && s.tasks[task].bundle.Delivery() == delivery
    case InPending(runId) => runId in s.pending && s.pending[runId].bundle.Delivery() == delivery
    case InCall(i) => i < |s.calls| && s.calls[i].pending.bundle.Delivery() == delivery
  }

  ghost predicate OneHolder(s: Registry) {
    && (forall token, d :: Holds(s, token, d) ==> d in s.deliveries)
    && (forall t1, t2, d :: Holds(s, t1, d) && Holds(s, t2, d) ==> t1 == t2)
  }

  // Ids are never reused, and every slot and every suspended coroutine names an existing ledger.
  ghost predicate IdsBounded(s: Registry) {
    && (forall task :: task in s.tasks ==> task < s.nextId && s.tasks[task].ledger in s.ledgers)
    && (forall address :: address in s.ledgers ==> address < s.nextId)
    && (forall i :: 0 <= i < |s.runs| ==> s.runs[i].ledger in s.ledgers)
  }

  // What every reserve_inventory call was made on.
  predicate Justified(c: ReserveCall) {
    && c.action.Approve?
    && IsCurrent(c.found, c.pending.bundle.source)
    && c.now <= c.pending.expiresAt
    && CanReserve(c.pending.facts)
  }

  ghost predicate CallsJustified(s: Registry) {
    && (forall i :: 0 <= i < |s.calls| ==> Justified(s.calls[i]))
    && (forall runId :: runId in s.pending ==> CanReserve(s.pending[runId].facts))
  }

  ghost predicate Inv(s: Registry) {
    OneHolder(s) && IdsBounded(s) && CallsJustified(s)
  }

  // ------------------------------------------------------------ every segment keeps the invariant

  lemma {:induction false} FindHits(runs: seq<Slot>, runId: string)
    ensures Find(runs, runId).None? <==> forall i :: 0 <= i < |runs| ==> runs[i].runId != runId
    ensures Find(runs, runId).Some? ==>
              exists i :: 0 <= i < |runs| && runs[i].runId == runId && runs[i].ledger == Find(runs, runId).value
  {
    if runs != [] {
      FindHits(runs[1..], runId);
      assert forall i :: 0 < i < |runs| ==> runs[i] == runs[1..][i - 1];
      assert forall i :: 0 <= i < |runs[1..]| ==> runs[1..][i] == runs[i + 1];
    }
  }

  lemma OpenKeeps(s: Registry, runId: string)
    requires Inv(s)
    ensures var (s1, address) := GetOrCreate(s, runId);
      && Inv(s1) && address in s1.ledgers && s.nextId <= s1.nextId
      && s1 == s.(ledgers := s1.ledgers, runs := s1.runs, nextId := s1.nextId)
  {
    FindHits(s.runs, runId);
    var s1 := GetOrCreate(s, runId).0;
    forall token, d | Holds(s1, token, d) ensures Holds(s, token, d) {
    }
  }

  lemma DeliveredKeeps(s: Registry, b: Bundle, recorded: (LedgerState, bool))
    requires Inv(s) && b.Delivery() !in s.deliveries
    ensures Inv(Delivered(s, b, recorded))
  {
    OpenKeeps(s, b.runId);
    var (s1, address) := GetOrCreate(s, b.runId);
    var s2 := WithLedger(s1, address, recorded.0);
    var s' := Delivered(s, b, recorded);
    forall token, d | Holds(s', token, d)
      ensures if recorded.1 && token == InTask(s1.nextId) then d == b.Delivery() else Holds(s, token, d)
    {
    }
  }

  lemma WaitingKeeps(s: Registry, task: nat, facts: seq<Fact>)
    requires Inv(s) && task in s.tasks && s.tasks[task].AwaitFacts?
    ensures Inv(s.(tasks := s.tasks[task := AwaitAdvice(s.tasks[task].bundle, s.tasks[task].ledger, facts)]))
  {
    var s' := s.(tasks := s.tasks[task := AwaitAdvice(s.tasks[task].bundle, s.tasks[task].ledger, facts)]);
    forall token, d | Holds(s', token, d) ensures Holds(s, token, d) {
    }
  }

  lemma SettleKeeps(s: Registry, task: nat, r: (LedgerState, Option<Pending>))
    requires Inv(s) && task in s.tasks && (s.tasks[task].AwaitFacts? || s.tasks[task].AwaitAdvice?)
    requires r.1.Some? ==> r.1.value.bundle == s.tasks[task].bundle && CanReserve(r.1.value.facts)
    ensures Inv(Settle(s, task, r))
  {
    var s' := Settle(s, task, r);
    var target := InPending(s.tasks[task].bundle.runId);
    forall token, d | Holds(s', token, d)
      ensures
        if r.1.Some? && token == target then Holds(s, InTask(task), d)
        else token != InTask(task) && Holds(s, token, d)
    {
    }
  }

  lemma PoppedKeeps(s: Registry, runId: string)
    requires Inv(s)
    ensures var (s1, address) := Popped(s, runId);
      && Inv(s1) && address in s1.ledgers
      && s1.tasks == s.tasks && s1.calls == s.calls && s1.deliveries == s.deliveries
      && s1.pending == s.pending - {runId}
  {
    var s0 := s.(pending := s.pending - {runId});
    forall token, d | Holds(s0, token, d) ensures Holds(s, token, d) {
    }
    OpenKeeps(s0, runId);
  }

  // The right to reserve moves from the checkpoint to the call, and nowhere else.
  lemma ResolvedHolds(s: Registry, runId: string, action: Action, clock: int, r: (LedgerState, Flow), token: Token,
                      d: string)
    requires Inv(s) && runId in s.pending && Holds(Resolved(s, runId, action, clock, r), token, d)
    ensures
      if r.1.CallInventory? && token == InCall(|s.calls|) then Holds(s, InPending(runId), d)
      else token != InPending(runId) && Holds(s, token, d)
  {
    PoppedKeeps(s, runId);
  }

  lemma ResolvedKeeps(s: Registry, runId: string, action: Action, clock: int, r: (LedgerState, Flow))
    requires Inv(s) && runId in s.pending
    requires r.1.CallInventory? ==>
               && action.Approve? && ResolveTime(s.pending[runId], clock) <= s.pending[runId].expiresAt
               && IsCurrent(LedgerAt(Popped(s, runId).0, Popped(s, runId).1), s.pending[runId].bundle.source)
    ensures Inv(Resolved(s, runId, action, clock, r))
  {
    PoppedKeeps(s, runId);
    var s', spent := Resolved(s, runId, action, clock, r), InCall(|s.calls|);
    forall token, d | Holds(s', token, d)
      ensures
        if r.1.CallInventory? && token == spent then Holds(s, InPending(runId), d)
        else token != InPending(runId) && Holds(s, token, d)
    {
      ResolvedHolds(s, runId, action, clock, r, token, d);
    }
  }

  lemma ResumeHolds(s: Registry, task: nat, r: (LedgerState, Flow), token: Token, d: string)
    requires InSaga(s, task) && Holds(Resume(s, task, r), token, d)
    ensures Holds(s, token, d)
  {
  }

  lemma ResumeKeeps(s: Registry, task: nat, r: (LedgerState, Flow))
    requires Inv(s) && InSaga(s, task)
    ensures Inv(Resume(s, task, r))
  {
    var s' := Resume(s, task, r);
    forall token, d | Holds(s', token, d) ensures Holds(s, token, d) {
      ResumeHolds(s, task, r, token, d);
    }
    assert s'.deliveries == s.deliveries && s'.calls == s.calls && s'.pending == s.pending;
  }

  lemma SagaKeeps(s: Registry, segment: Segment)
    requires Inv(s) && (segment.InventoryAnswers? || segment.CarrierAnswers? || segment.ReleaseAnswers?)
    ensures Inv(Do(s, segment))
  {
    if segment.task in s.tasks {
      var t, ok := s.tasks[segment.task], segment.ok;
      var l := LedgerAt(s, t.ledger);
      if segment.InventoryAnswers? && t.AwaitInventory? {
        ResumeKeeps(s, segment.task, AfterInventory(l, t.bundle, t.now, ok));
      } else if segment.CarrierAnswers? && t.AwaitCarrier? {
        ResumeKeeps(s, segment.task, AfterCarrier(l, t.bundle, t.now, ok));
      } else if segment.ReleaseAnswers? && t.AwaitRelease? {
        ResumeKeeps(s, segment.task, AfterRelease(l, t.bundle, t.now, ok));
      }
    }
  }

  lemma AdviceOpensOnlyGated(s: LedgerState, b: Bundle, facts: seq<Fact>, advice: Option<Advice>, clock: int)
    ensures var p := AfterAdvice(s, b, facts, advice, clock).1;
      p.Some? ==> p.value.bundle == b && p.value.facts == facts && CanReserve(facts)
  {
  }

  lemma CommandKeeps(s: Registry, runId: string, action: Action, clock: int)
    requires Inv(s)
    ensures Inv(CommandStep(s, runId, action, clock))
  {
    if runId in s.pending {
      var (s1, address) := Popped(s, runId);
      StartOutcomes(LedgerAt(s1, address), s.pending[runId], action, clock);
      ResolvedKeeps(s, runId, action, clock, ResolveStart(LedgerAt(s1, address), s.pending[runId], action, clock));
    }
  }

  lemma ProcessKeeps(s: Registry, segment: Segment)
    requires Inv(s) && (segment.FactsArrive? || segment.AdviceArrives?)
    ensures Inv(Do(s, segment))
  {
    if segment.task in s.tasks {
      var t := s.tasks[segment.task];
      match segment
      case FactsArrive(task, results) =>
        if t.AwaitFacts? {
          if results.None? {
            var blocked := RecordAll(LedgerAt(s, t.ledger), BlockDrafts(t.bundle, "context_unavailable")).0;
            SettleKeeps(s, task, (blocked, None));
          } else {
            WaitingKeeps(s, task, MatchingFacts(results.value, t.bundle));
          }
        }
      case AdviceArrives(task, advice, clock) =>
        if t.AwaitAdvice? {
          AdviceOpensOnlyGated(LedgerAt(s, t.ledger), t.bundle, t.facts, advice, clock);
          SettleKeeps(s, task, AfterAdvice(LedgerAt(s, t.ledger), t.bundle, t.facts, advice, clock));
        }
    }
  }

  lemma InvStep(s: Registry, segment: Segment)
    requires Inv(s)
    ensures Inv(Do(s, segment))
  {
    match segment
    case Open(runId) =>
      if IsRunId(runId) {
        OpenKeeps(s, runId);
      }
    case Deliver(b) =>
      if ValidBundle(b) && b.Delivery() !in s.deliveries {
        var (s1, address) := GetOrCreate(s, b.runId);
        DeliveredKeeps(s, b, DeliverChain(LedgerAt(s1, address), b));
      }
    case FactsArrive(task, results) => ProcessKeeps(s, segment);
    case AdviceArrives(task, advice, clock) => ProcessKeeps(s, segment);
    case Command(runId, action, clock) => CommandKeeps(s, runId, action, clock);
    case _ => SagaKeeps(s, segment);
  }

  lemma InvHolds(segments: seq<Segment>)
    ensures Inv(Run(segments))
  {
    var inv := (s: Registry) => Inv(s);
    forall s: Registry, segment | inv(s) ensures inv(Do(s, segment)) {
      InvStep(s, segment);
    }
    RunInvariant(Do, inv, EMPTY, segments);
  }

  // ------------------------------------------------------------ main results

  // At most once: over every interleaving and despite eviction, a delivery causes at most one
  // reserve_inventory call, and that call followed an approval, made in time, of a proposal whose
  // retrieved facts passed the gate, while exactly that source version was the current projection.
  lemma AtMostOneReservation(segments: seq<Segment>)
    ensures
      var calls := Run(segments).calls;
      && (forall i, j :: 0 <= i < j < |calls| ==>
            calls[i].pending.bundle.Delivery() != calls[j].pending.bundle.Delivery())
      && (forall i :: 0 <= i < |calls| ==>
            Justified(calls[i]) && calls[i].pending.bundle.Delivery() in Run(segments).deliveries)
  {
    InvHolds(segments);
    var s := Run(segments);
    forall i, j | 0 <= i < j < |s.calls|
      ensures s.calls[i].pending.bundle.Delivery() != s.calls[j].pending.bundle.Delivery()
    {
      assert Holds(s, InCall(i), s.calls[i].pending.bundle.Delivery());
      assert Holds(s, InCall(j), s.calls[j].pending.bundle.Delivery());
    }
    forall i | 0 <= i < |s.calls| ensures s.calls[i].pending.bundle.Delivery() in s.deliveries {
      assert Holds(s, InCall(i), s.calls[i].pending.bundle.Delivery());
    }
  }

  predicate NamesDistinct(runs: seq<Slot>) {
    forall i, j :: 0 <= i < j < |runs| ==> runs[i].runId != runs[j].runId
  }

  lemma RunsStep(s: Registry, runId: string)
    requires |s.runs| <= MAX_RUNS && NamesDistinct(s.runs)
    ensures var s' := GetOrCreate(s, runId).0;
      |s'.runs| <= MAX_RUNS && NamesDistinct(s'.runs)
  {
    FindHits(s.runs, runId);
  }

  predicate SameBooks(s: Registry, s': Registry) {
    s'.runs == s.runs && s'.deliveries == s.deliveries
  }

  lemma SettleBooks(s: Registry, task: nat, r: (LedgerState, Option<Pending>))
    requires task in s.tasks
    ensures SameBooks(s, Settle(s, task, r))
  {
  }

  lemma ResumeBooks(s: Registry, task: nat, r: (LedgerState, Flow))
    requires InSaga(s, task)
    ensures SameBooks(s, Resume(s, task, r))
  {
  }

  lemma DeliveredBooks(s: Registry, b: Bundle, recorded: (LedgerState, bool))
    ensures Delivered(s, b, recorded).runs == GetOrCreate(s, b.runId).0.runs
    ensures s.deliveries <= Delivered(s, b, recorded).deliveries
  {
  }

  lemma ResolvedBooks(s: Registry, runId: string, action: Action, clock: int, r: (LedgerState, Flow))
    requires runId in s.pending
    ensures Resolved(s, runId, action, clock, r).runs == GetOrCreate(s, runId).0.runs
    ensures Resolved(s, runId, action, clock, r).deliveries == s.deliveries
  {
  }

  lemma ProcessBooks(s: Registry, segment: Segment)
    requires segment.FactsArrive? || segment.AdviceArrives?
    ensures SameBooks(s, Do(s, segment))
  {
    if segment.task in s.tasks {
      var t := s.tasks[segment.task];
      var l := LedgerAt(s, t.ledger);
      if segment.FactsArrive? && t.AwaitFacts? {
        SettleBooks(s, segment.task, (RecordAll(l, BlockDrafts(t.bundle, "context_unavailable")).0, None));
      } else if segment.AdviceArrives? && t.AwaitAdvice? {
        SettleBooks(s, segment.task, AfterAdvice(l, t.bundle, t.facts, segment.advice, segment.clock));
      }
    }
  }

  lemma SagaBooks(s: Registry, segment: Segment)
    requires segment.InventoryAnswers? || segment.CarrierAnswers? || segment.ReleaseAnswers?
    ensures SameBooks(s, Do(s, segment))
  {
    if segment.task in s.tasks {
      var t, ok := s.tasks[segment.task], segment.ok;
      var l := LedgerAt(s, t.ledger);
      if segment.InventoryAnswers? && t.AwaitInventory? {
        ResumeBooks(s, segment.task, AfterInventory(l, t.bundle, t.now, ok));
      } else if segment.CarrierAnswers? && t.AwaitCarrier? {
        ResumeBooks(s, segment.task, AfterCarrier(l, t.bundle, t.now, ok));
      } else if segment.ReleaseAnswers? && t.AwaitRelease? {
        ResumeBooks(s, segment.task, AfterRelease(l, t.bundle, t.now, ok));
      }
    }
  }

  // No segment forgets a delivery, and only these three touch the run table.
  lemma BooksOf(s: Registry, segment: Segment)
    ensures var s' := Do(s, segment);
      && s.deliveries <= s'.deliveries
      && (|| s'.runs == s.runs
          || (segment.Open? && s'.runs == GetOrCreate(s, segment.runId).0.runs)
          || (segment.Command? && s'.runs == GetOrCreate(s, segment.runId).0.runs)
          || (segment.Deliver? && s'.runs == GetOrCreate(s, segment.bundle.runId).0.runs))
  {
    match segment
    case Open(runId) =>
    case Deliver(b) =>
      var (s1, address) := GetOrCreate(s, b.runId);
      DeliveredBooks(s, b, DeliverChain(LedgerAt(s1, address), b));
    case FactsArrive(task, results) => ProcessBooks(s, segment);
    case AdviceArrives(task, advice, clock) => ProcessBooks(s, segment);
    case Command(runId, action, clock) =>
      if runId in s.pending {
        var (s1, address) := Popped(s, runId);
        ResolvedBooks(s, runId, action, clock,
                      ResolveStart(LedgerAt(s1, address), s.pending[runId], action, clock));
      }
    case _ => SagaBooks(s, segment);
  }

  // At most 32 runs are held, one slot each.
  lemma RunsBounded(segments: seq<Segment>)
    ensures |Run(segments).runs| <= MAX_RUNS && NamesDistinct(Run(segments).runs)
  {
    var inv := (s: Registry) => |s.runs| <= MAX_RUNS && NamesDistinct(s.runs);
    forall s: Registry, segment | inv(s) ensures inv(Do(s, segment)) {
      BooksOf(s, segment);
      match segment
      case Open(runId) => RunsStep(s, runId);
      case Deliver(b) => RunsStep(s, b.runId);
      case Command(runId, action, clock) => RunsStep(s, runId);
      case _ =>
    }
    RunInvariant(Do, inv, EMPTY, segments);
  }

  // Once delivered, always delivered: the same delivery id later on changes nothing at all, even
  // after its run and ledger have been evicted.
  lemma RedeliveryIsNoOp(segments: seq<Segment>, more: seq<Segment>, b: Bundle)
    requires b.Delivery() in Run(segments).deliveries
    ensures Do(Run(segments + more), Deliver(b)) == Run(segments + more)
  {
    var inv := (s: Registry) => b.Delivery() in s.deliveries;
    forall s: Registry, segment | inv(s) ensures inv(Do(s, segment)) {
      BooksOf(s, segment);
    }
    RunInvariant(Do, inv, Run(segments), more);
    RunConcat(Do, EMPTY, segments, more);
  }

  // One delivery step on any registry: the run's ledger takes the whole chain and the delivery is
  // marked, or the delivery is not marked and, for a display-safe document id, the ledger is as it was.
  lemma DeliveryStepIsAllOrNothing(s: Registry, b: Bundle)
    requires ValidBundle(b) && b.Delivery() !in s.deliveries && DisplaySafe(b.documentId)
    ensures
      var (s1, address) := GetOrCreate(s, b.runId);
      var s' := DeliverStep(s, b);
      var before, after := LedgerAt(s1, address), LedgerAt(s', address);
      if b.Delivery() in s'.deliveries then
        after == DeliverChain(before, b).0 && after.sequence == before.sequence + 3 && IsCurrent(after, b.source)
      else after == before && s'.tasks == s.tasks
  {
    var (s1, address) := GetOrCreate(s, b.runId);
    DeliveryIsAllOrNothing(LedgerAt(s1, address), b);
  }

  // ------------------------------------------------------------ which runs are held

  function Names(runs: seq<Slot>): (names: seq<string>)
    ensures |names| == |runs| && forall i :: 0 <= i < |runs| ==> names[i] == runs[i].runId
  {
    seq(|runs|, i requires 0 <= i < |runs| => runs[i].runId)
  }

  // The run a segment gets or creates, if any.
  function Wanted(s: Registry, segment: Segment): Option<string> {
    match segment
    case Open(runId) => if IsRunId(runId) then Some(runId) else None
    case Deliver(b) => if ValidBundle(b) && b.Delivery() !in s.deliveries then Some(b.runId) else None
    case Command(runId, _, _) => if runId in s.pending then Some(runId) else None
    case _ => None
  }

  // Every run ever created, in that order; a run evicted and asked for again is created anew.
  function Created(segments: seq<Segment>): seq<string> {
    if segments == [] then []
    else
      var init, x := segments[..|segments| - 1], segments[|segments| - 1];
      match Wanted(Run(init), x)
      case Some(runId) => Created(init) + if runId in Names(Run(init).runs) then [] else [runId]
      case None => Created(init)
  }

  lemma OpenNames(s: Registry, runId: string)
    requires |s.runs| <= MAX_RUNS
    ensures Names(GetOrCreate(s, runId).0.runs)
         == if runId in Names(s.runs) then Names(s.runs) else Tail(Names(s.runs) + [runId], 32)
  {
    FindHits(s.runs, runId);
    var names := Names(s.runs);
    assert runId in names <==> exists i :: 0 <= i < |names| && names[i] == runId;
  }

  lemma WantedBooks(s: Registry, segment: Segment)
    ensures Do(s, segment).runs == match Wanted(s, segment)
      case Some(runId) => GetOrCreate(s, runId).0.runs
      case None => s.runs
  {
    BooksOf(s, segment);
    match segment
    case Deliver(b) =>
      var (s1, address) := GetOrCreate(s, b.runId);
      DeliveredBooks(s, b, DeliverChain(LedgerAt(s1, address), b));
    case Command(runId, action, clock) =>
      if runId in s.pending {
        var (s1, address) := Popped(s, runId);
        ResolvedBooks(s, runId, action, clock, ResolveStart(LedgerAt(s1, address), s.pending[runId], action, clock));
      }
    case _ =>
  }

  // The registry holds exactly the 32 runs created last, oldest first: whichever segments led here,
  // an eviction always takes the oldest.
  lemma {:induction false} LatestRunsAreHeld(segments: seq<Segment>)
    ensures Names(Run(segments).runs) == Tail(Created(segments), 32)
  {
    if segments != [] {
      var init, x := segments[..|segments| - 1], segments[|segments| - 1];
      LatestRunsAreHeld(init);
      RunsBounded(init);
      WantedBooks(Run(init), x);
      if Wanted(Run(init), x).Some? {
        OpenNames(Run(init), Wanted(Run(init), x).value);
      }
    }
  }

  // Exactly the run ids the routes let through; none is blank or holds a separator the service joins
  // ids with.
  lemma RouteRunIds(runId: string)
    ensures IsRunId(runId) <==>
      1 <= |runId| <= 120 && forall c :: c in runId ==> '-' <= c <= 'z' && c !in "/:;<=>?@[\\]^`"
    ensures IsRunId(runId) ==> NonBlank(runId) && ':' !in runId && '/' !in runId
  {
    forall i | 0 <= i < |runId| ensures runId[i] in runId && (SafeRunChar(runId[i]) ==> !IsSpace(runId[i])) {
      RunCharExactly(runId[i]);
    }
    forall c | c in runId ensures exists i :: 0 <= i < |runId| && runId[i] == c {
    }
    assert IsRunId(runId) ==> SafeRunChar(runId[0]) && !IsSpace(runId[0]);
  }

  lemma RunCharExactly(c: char)
    ensures SafeRunChar(c) <==> '-' <= c <= 'z' && c !in "/:;<=>?@[\\]^`"
  {
  }
}
