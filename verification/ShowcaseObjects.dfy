/** The approval and the registry as the objects they are, proved against the ledger functions. */
module ShowcaseObjects {
  import opened Prelude
  import opened ShowcaseLedger
  import opened ShowcaseSaga
  import Machine = ShowcaseRegistry

  // The reservation port: outcomes fixes how each call will fare, calls remembers the calls made.
  class ReservationTools {
    const outcomes: Outcomes
    var calls: seq<ToolCall>

    constructor (outcomes: Outcomes)
      ensures this.outcomes == outcomes && calls == []
    {
      this.outcomes, calls := outcomes, [];
    }

    method Reserve() returns (ok: bool)
      modifies this
      ensures calls == old(calls) + [ReserveInventory] && ok == outcomes.inventory
    {
      calls, ok := calls + [ReserveInventory], outcomes.inventory;
    }

    method ReserveRoute() returns (ok: bool)
      modifies this
      ensures calls == old(calls) + [ReserveCarrier] && ok == outcomes.carrier
    {
      calls, ok := calls + [ReserveCarrier], outcomes.carrier;
    }

    method Release() returns (ok: bool)
      modifies this
      ensures calls == old(calls) + [ReleaseInventory] && ok == outcomes.release
    {
      calls, ok := calls + [ReleaseInventory], outcomes.release;
    }
  }

  predicate Bounded(ledger: ShowcaseEventLedger)
    reads ledger
  {
    |ledger.events| <= ledger.maxEvents
  }

  method CompensateInventory(b: Bundle, ledger: ShowcaseEventLedger, tools: ReservationTools, now: int)
    returns (r: Result<()>)
    requires Bounded(ledger)
    modifies ledger, tools
    ensures Bounded(ledger)
    ensures
      var saga := FromRelease(Compensate(old(ledger.State()), b, now), b, now, tools.outcomes);
      && ledger.State() == saga.ledger && tools.calls == old(tools.calls) + saga.calls
      && (r.Ok? <==> saga.flow.Returned?)
  {
    var event := ledger.Record(TransitionDraft(b, Compensating, "release_inventory", now));
    if event.Raise? {
      return Raise(event.error);
    }
    var released := tools.Release();
    r := Close(ledger, TransitionDraft(b, if released then Compensated else Failed, "release_inventory", now));
  }

  method ReserveRouteOrCompensate(b: Bundle, ledger: ShowcaseEventLedger, tools: ReservationTools, now: int)
    returns (r: Result<()>)
    requires Bounded(ledger)
    modifies ledger, tools
    ensures Bounded(ledger)
    ensures
      var saga := FromCarrier(CarrierStart(old(ledger.State()), b, now), b, now, tools.outcomes);
      && ledger.State() == saga.ledger && tools.calls == old(tools.calls) + saga.calls
      && (r.Ok? <==> saga.flow.Returned?)
  {
    var event := ledger.Record(TransitionDraft(b, Started, "reserve_carrier", now));
    if event.Ok? {
      var routed := tools.ReserveRoute();
      if routed {
        r := Close(ledger, TransitionDraft(b, Completed, "reserve_carrier", now));
        return;
      }
    }
    r := CompensateInventory(b, ledger, tools, now);
  }

  method ConfirmInventory(b: Bundle, ledger: ShowcaseEventLedger, tools: ReservationTools, now: int)
    returns (r: Result<()>)
    requires Bounded(ledger)
    modifies ledger, tools
    ensures Bounded(ledger)
    ensures
      var saga := FromCarrier(AfterInventory(old(ledger.State()), b, now, true), b, now, tools.outcomes);
      && ledger.State() == saga.ledger && tools.calls == old(tools.calls) + saga.calls
      && (r.Ok? <==> saga.flow.Returned?)
  {
    var event := ledger.Record(TransitionDraft(b, Completed, "reserve_inventory", now));
    if event.Raise? {
      return Raise(event.error);
    }
    r := ReserveRouteOrCompensate(b, ledger, tools, now);
  }

  method ReserveWithCompensation(b: Bundle, ledger: ShowcaseEventLedger, tools: ReservationTools, now: int)
    returns (r: Result<()>)
    requires Bounded(ledger)
    modifies ledger, tools
    ensures Bounded(ledger)
    ensures
      var saga := Reservation(old(ledger.State()), b, now, tools.outcomes);
      && ledger.State() == saga.ledger && tools.calls == old(tools.calls) + saga.calls
      && (r.Ok? <==> saga.flow.Returned?)
  {
    var event := ledger.Record(TransitionDraft(b, Started, "reserve_inventory", now));
    if event.Raise? {
      return Raise(event.error);
    }
    var reserved := tools.Reserve();
    if !reserved {
      return Raise(RuntimeError);
    }
    ghost var called := tools.calls;
    r := ConfirmInventory(b, ledger, tools, now);
    Regroup(old(tools.calls), [ReserveInventory], tools.calls[|called|..]);
  }

  lemma Regroup<T>(a: seq<T>, b: seq<T>, c: seq<T>)
    ensures (a + b) + c == a + (b + c)
  {
  }

  // resolve, run to its end with nobody else writing the ledger.
  method Resolve(p: Pending, action: Action, clock: int, ledger: ShowcaseEventLedger, tools: ReservationTools)
    returns (r: Result<()>)
    requires Bounded(ledger)
    modifies ledger, tools
    ensures Bounded(ledger)
    ensures
      var saga := Saga(old(ledger.State()), p, action, clock, tools.outcomes);
      && ledger.State() == saga.ledger
      && tools.calls == old(tools.calls) + saga.calls
      && (r.Ok? <==> saga.flow.Returned?)
  {
    var b := p.bundle;
    var now := if clock < b.projectionAppliedAt then b.projectionAppliedAt else clock;
    if !IsCurrent(ledger.State(), b.source) {
      r := Close(ledger, ApprovalDraft(b, Expired, now, "source_superseded"));
      return;
    }
    if now > p.expiresAt {
      r := Close(ledger, ApprovalDraft(b, Expired, now, "approval_expired"));
      return;
    }
    if action.Reject? {
      r := Close(ledger, ApprovalDraft(b, Rejected, now, "human_rejected"));
      return;
    }
    ghost var before := ledger.State();
    var approved := ApprovalDraft(b, Approved, now, "human_approved");
    var started := TransitionDraft(b, Started, "reserve_inventory", now);
    RecordTwo(before, approved, started);
    var event := ledger.Record(ApprovalDraft(b, Approved, now, "human_approved"));
    if event.Raise? {
      return Raise(event.error);
    }
    r := ReserveWithCompensation(b, ledger, tools, now);
  }

  method Close(ledger: ShowcaseEventLedger, d: Draft) returns (r: Result<()>)
    requires Bounded(ledger)
    modifies ledger
    ensures Bounded(ledger)
    ensures ledger.State() == Closing(old(ledger.State()), d).0
    ensures r.Ok? <==> Closing(old(ledger.State()), d).1.Returned?
  {
    var event := ledger.Record(d);
    return if event.Ok? then Ok(()) else Raise(ValueError);
  }

  method RecordChain(b: Bundle, ledger: ShowcaseEventLedger) returns (done: bool)
    requires Bounded(ledger)
    modifies ledger
    ensures Bounded(ledger)
    ensures (ledger.State(), done) == DeliverChain(old(ledger.State()), b)
  {
    RecordThree(ledger.State(), SourceDraft(b), ReceiptDraft(b), ProjectionDraft(b));
    var event := ledger.Record(SourceDraft(b));
    if event.Ok? {
      event := ledger.Record(ReceiptDraft(b));
    }
    if event.Ok? {
      event := ledger.Record(ProjectionDraft(b));
    }
    done := event.Ok?;
  }

  datatype Entry = Entry(runId: string, ledger: ShowcaseEventLedger)

  class ShowcaseRegistry {
    var runs: seq<Entry>
    var deliveries: set<string>
    var pending: map<string, Pending>

    ghost function Ledgers(): set<ShowcaseEventLedger>
      reads this
    {
      set e | e in runs :: e.ledger
    }

    ghost predicate Valid()
      reads this, Ledgers()
    {
      && |runs| <= Machine.MAX_RUNS
      && (forall i :: 0 <= i < |runs| ==> runs[i].ledger.runId == runs[i].runId && Bounded(runs[i].ledger))
      && (forall i, j :: 0 <= i < j < |runs| ==>
            runs[i].runId != runs[j].runId && runs[i].ledger != runs[j].ledger)
      && (forall runId :: runId in pending ==> NonBlank(runId))
    }

    constructor ()
      ensures Valid() && runs == [] && deliveries == {} && pending == map[]
    {
      runs, deliveries, pending := [], {}, map[];
    }

    method GetOrCreate(runId: string) returns (ledger: ShowcaseEventLedger)
      requires Valid() && NonBlank(runId)
      modifies this`runs
      ensures Valid() && Entry(runId, ledger) in runs && Bounded(ledger)
      ensures if exists e :: e in old(runs) && e.runId == runId
              then runs == old(runs)
              else
                && fresh(ledger) && ledger.State() == Fresh(runId, Machine.MAX_EVENTS)
                && runs == (if |old(runs)| >= Machine.MAX_RUNS then old(runs)[1..] else old(runs))
                           + [Entry(runId, ledger)]
    {
      var i := 0;
      while i < |runs|
        invariant 0 <= i <= |runs| && forall j :: 0 <= j < i ==> runs[j].runId != runId
      {
        if runs[i].runId == runId {
          return runs[i].ledger;
        }
        i := i + 1;
      }
      if |runs| >= Machine.MAX_RUNS {
        runs := runs[1..];
      }
      ledger := new ShowcaseEventLedger(runId, Machine.MAX_EVENTS);
      runs := runs + [Entry(runId, ledger)];
    }

    method RecordOnRun(b: Bundle, ledger: ShowcaseEventLedger) returns (done: bool)
      requires Valid() && Entry(b.runId, ledger) in runs
      modifies ledger
      ensures Valid() && (ledger.State(), done) == DeliverChain(old(ledger.State()), b)
    {
      done := RecordChain(b, ledger);
    }

    method Mark(b: Bundle)
      requires Valid()
      modifies this`deliveries
      ensures Valid() && deliveries == old(deliveries) + {b.Delivery()}
    {
      deliveries := deliveries + {b.Delivery()};
    }

    // apply_cdc_bundle up to its await, for a delivery not seen before: the chain is recorded on the
    // run's ledger, new or found, and the delivery is marked if all of it was.
    method DeliverNew(b: Bundle) returns (done: bool, ledger: ShowcaseEventLedger)
      requires Valid() && ValidBundle(b)
      modifies this`runs, this`deliveries, Ledgers()
      ensures Valid() && Entry(b.runId, ledger) in runs
      ensures deliveries == old(deliveries) + (if done then {b.Delivery()} else {})
      ensures fresh(ledger) || Entry(b.runId, ledger) in old(runs)
      ensures fresh(ledger) ==> (ledger.State(), done) == DeliverChain(Fresh(b.runId, Machine.MAX_EVENTS), b)
      ensures !fresh(ledger) ==> (ledger.State(), done) == DeliverChain(old(ledger.State()), b)
      ensures forall e :: e in old(runs) && e.ledger != ledger ==> unchanged(e.ledger)
    {
      ledger := GetOrCreate(b.runId);
      done := RecordOnRun(b, ledger);
      if done {
        Mark(b);
      }
    }

    method ApplyCdcBundle(b: Bundle) returns (r: Result<bool>)
      requires Valid() && ValidBundle(b)
      modifies this`runs, this`deliveries, Ledgers()
      ensures Valid()
      ensures b.Delivery() in old(deliveries) ==>
                r == Ok(false) && unchanged(this) && forall e :: e in runs ==> unchanged(e.ledger)
      ensures b.Delivery() !in old(deliveries) ==> r == Ok(true) || r == Raise(ValueError)
      ensures deliveries == old(deliveries) + (if r.Ok? then {b.Delivery()} else {})
      ensures b.Delivery() !in old(deliveries) ==>
                exists e ::
                  && e in runs && e.runId == b.runId
                  && (e in old(runs) ==> (e.ledger.State(), r.Ok?) == DeliverChain(old(e.ledger.State()), b))
                  && (e !in old(runs) ==>
                        (e.ledger.State(), r.Ok?) == DeliverChain(Fresh(b.runId, Machine.MAX_EVENTS), b))
                  && (forall x :: x in old(runs) && x.ledger != e.ledger ==> unchanged(x.ledger))
    {
      if b.Delivery() in deliveries {
        return Ok(false);
      }
      var done, ledger := DeliverNew(b);
      ghost var e := Entry(b.runId, ledger);
      assert e in old(runs) ==> !fresh(ledger);
      return if done then Ok(true) else Raise(ValueError);
    }

    method ResolveOnRun(runId: string, p: Pending, action: Action, clock: int, ledger: ShowcaseEventLedger,
                        tools: ReservationTools)
      returns (r: Result<()>)
      requires Valid() && Entry(runId, ledger) in runs
      modifies ledger, tools
      ensures Valid()
      ensures
        var saga := Saga(old(ledger.State()), p, action, clock, tools.outcomes);
        && ledger.State() == saga.ledger && tools.calls == old(tools.calls) + saga.calls
        && (r.Ok? <==> saga.flow.Returned?)
    {
      r := Resolve(p, action, clock, ledger, tools);
    }

    // A decision on a checkpoint already taken, on the run's ledger, new or found.
    method Decide(runId: string, p: Pending, action: Action, clock: int, tools: ReservationTools)
      returns (r: Result<()>, ledger: ShowcaseEventLedger)
      requires Valid() && NonBlank(runId)
      modifies this`runs, Ledgers(), tools
      ensures Valid() && Entry(runId, ledger) in runs
      ensures fresh(ledger) || Entry(runId, ledger) in old(runs)
      ensures
        var saga := Saga(if fresh(ledger) then Fresh(runId, Machine.MAX_EVENTS) else old(ledger.State()),
                         p, action, clock, tools.outcomes);
        && ledger.State() == saga.ledger && tools.calls == old(tools.calls) + saga.calls
        && (r.Ok? <==> saga.flow.Returned?)
      ensures forall e :: e in old(runs) && e.ledger != ledger ==> unchanged(e.ledger)
    {
      ledger := GetOrCreate(runId);
      r := ResolveOnRun(runId, p, action, clock, ledger, tools);
    }

    // A command consumes the run's pending checkpoint before anything else happens.
    method Command(runId: string, action: Action, clock: int, tools: ReservationTools) returns (r: Result<()>)
      requires Valid()
      modifies this`runs, this`pending, Ledgers(), tools
      ensures Valid() && pending == old(pending) - {runId}
      ensures runId !in old(pending) ==> r == Raise(Unavailable) && tools.calls == old(tools.calls) && runs == old(runs)
      ensures runId in old(pending) ==>
                exists e ::
                  && e in runs && e.runId == runId
                  && (var found := if e in old(runs) then old(e.ledger.State()) else Fresh(runId, Machine.MAX_EVENTS);
                      var saga := Saga(found, old(pending)[runId], action, clock, tools.outcomes);
                      && e.ledger.State() == saga.ledger && tools.calls == old(tools.calls) + saga.calls
                      && (r.Ok? <==> saga.flow.Returned?))
                  && (forall x :: x in old(runs) && x.ledger != e.ledger ==> unchanged(x.ledger))
    {
      if runId !in pending {
        assert pending == old(pending) - {runId};
        return Raise(Unavailable);
      }
      var p := pending[runId];
      pending := pending - {runId};
      var resolved, ledger := Decide(runId, p, action, clock, tools);
      ghost var e := Entry(runId, ledger);
      assert e in old(runs) <==> !fresh(ledger);
      return resolved;
    }
  }
}
