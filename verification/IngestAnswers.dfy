/** What every ingest call answers, on any deliveries at all, told by what was applied before it. */
module IngestAnswers {
  import opened Prelude
  import opened Domain
  import opened StableIds
  import opened ContextStore

  // The states a sequence of ingest calls passes through, with what each call answered.
  ghost predicate Answered(changes: seq<Change>, states: seq<StoreState>, answers: seq<Result<Disposition>>) {
    && |states| == |changes| + 1 && |answers| == |changes| && states[0] == EMPTY
    && forall i :: 0 <= i < |changes| ==> AnsweredAt(changes, states, answers, i)
  }

  ghost predicate AnsweredAt(changes: seq<Change>, states: seq<StoreState>, answers: seq<Result<Disposition>>, i: int) {
    && 0 <= i < |changes| && i < |answers| && i + 1 < |states|
    && IngestStep(states[i], changes[i], states[i + 1], answers[i])
  }

  // Call i was one of the first n and applied its change.
  predicate AppliedIn(answers: seq<Result<Disposition>>, n: int, i: int) {
    0 <= i < n && i < |answers| && answers[i] == Ok(Applied)
  }

  // The tables hold exactly what was applied: an event table entry per applied event, and per record
  // the highest applied version.
  ghost predicate TablesOf(changes: seq<Change>, answers: seq<Result<Disposition>>, n: nat, s: StoreState)
    requires n <= |changes| == |answers|
  {
    && (forall i {:trigger AppliedIn(answers, n, i)} ::
          AppliedIn(answers, n, i) ==> EventKept(s, changes[i]) && FenceReaches(s, changes[i]))
    && (forall id {:trigger EventApplied(changes, answers, n, id)} ::
          id in s.events ==> EventApplied(changes, answers, n, id))
    && (forall k {:trigger FenceApplied(changes, answers, n, s, k)} ::
          k in s.revisions ==> FenceApplied(changes, answers, n, s, k))
  }

  // The event of this id was applied; the fence of this record is a version that was.
  ghost predicate EventApplied(changes: seq<Change>, answers: seq<Result<Disposition>>, n: nat, id: string)
    requires n <= |changes| == |answers|
  {
    exists i :: AppliedIn(answers, n, i) && changes[i].event.eventId == id
  }

  ghost predicate FenceApplied(
    changes: seq<Change>, answers: seq<Result<Disposition>>, n: nat, s: StoreState, k: SourceKey)
    requires n <= |changes| == |answers|
  {
    exists i :: AppliedIn(answers, n, i) && FenceFrom(s, changes[i], k)
  }

  predicate EventKept(s: StoreState, change: Change) {
    change.event.eventId in s.events && s.events[change.event.eventId] == FingerprintOf(change)
  }

  predicate FenceReaches(s: StoreState, change: Change) {
    KeyOf(change.event) in s.revisions && change.event.sourceVersion <= s.revisions[KeyOf(change.event)].version
  }

  predicate FenceFrom(s: StoreState, change: Change, k: SourceKey) {
    KeyOf(change.event) == k && k in s.revisions && s.revisions[k].version == change.event.sourceVersion
  }

  // An applied change enters both tables, above the fence; any other call leaves them.
  predicate TablesNext(s: StoreState, change: Change, s': StoreState, r: Result<Disposition>) {
    var e := change.event;
    if r == Ok(Applied) then
      && s'.events == s.events[e.eventId := FingerprintOf(change)] && e.eventId !in s.events
      && s'.revisions == s.revisions[KeyOf(e) := Revision(e.sourceVersion, e.eventId, ContentHash(change))]
      && (KeyOf(e) in s.revisions ==> s.revisions[KeyOf(e)].version < e.sourceVersion)
    else s'.events == s.events && s'.revisions == s.revisions
  }

  lemma StepTables(s: StoreState, change: Change, s': StoreState, r: Result<Disposition>)
    requires IngestStep(s, change, s', r)
    ensures TablesNext(s, change, s', r)
  {
  }

  lemma KeptNext(s: StoreState, change: Change, s': StoreState, r: Result<Disposition>, earlier: Change)
    requires TablesNext(s, change, s', r)
    requires (EventKept(s, earlier) && FenceReaches(s, earlier)) || (r == Ok(Applied) && earlier == change)
    ensures EventKept(s', earlier) && FenceReaches(s', earlier)
  {
  }

  lemma EventNext(changes: seq<Change>, answers: seq<Result<Disposition>>, n: nat, s: StoreState, s': StoreState,
                  id: string)
    requires n < |changes| == |answers| && TablesOf(changes, answers, n, s)
    requires TablesNext(s, changes[n], s', answers[n]) && id in s'.events
    ensures EventApplied(changes, answers, n + 1, id)
  {
    if id in s.events {
      assert EventApplied(changes, answers, n, id);
      var i :| AppliedIn(answers, n, i) && changes[i].event.eventId == id;
      assert AppliedIn(answers, n + 1, i);
    } else {
      assert AppliedIn(answers, n + 1, n);
    }
  }

  lemma FenceNext(changes: seq<Change>, answers: seq<Result<Disposition>>, n: nat, s: StoreState, s': StoreState,
                  k: SourceKey)
    requires n < |changes| == |answers| && TablesOf(changes, answers, n, s)
    requires TablesNext(s, changes[n], s', answers[n]) && k in s'.revisions
    ensures FenceApplied(changes, answers, n + 1, s', k)
  {
    if answers[n] == Ok(Applied) && k == KeyOf(changes[n].event) {
      assert AppliedIn(answers, n + 1, n) && FenceFrom(s', changes[n], k);
    } else {
      assert FenceApplied(changes, answers, n, s, k);
      var i :| AppliedIn(answers, n, i) && FenceFrom(s, changes[i], k);
      assert AppliedIn(answers, n + 1, i) && FenceFrom(s', changes[i], k);
    }
  }

  lemma TablesStep(changes: seq<Change>, states: seq<StoreState>, answers: seq<Result<Disposition>>, n: nat)
    requires Answered(changes, states, answers) && n < |changes| && TablesOf(changes, answers, n, states[n])
    ensures TablesOf(changes, answers, n + 1, states[n + 1])
  {
    assert AnsweredAt(changes, states, answers, n);
    StepTables(states[n], changes[n], states[n + 1], answers[n]);
    TablesAfter(changes, answers, n, states[n], states[n + 1]);
  }

  lemma AllKept(changes: seq<Change>, answers: seq<Result<Disposition>>, n: nat, s: StoreState, s': StoreState)
    requires n < |changes| == |answers| && TablesOf(changes, answers, n, s)
    requires TablesNext(s, changes[n], s', answers[n])
    ensures forall i {:trigger AppliedIn(answers, n + 1, i)} ::
      AppliedIn(answers, n + 1, i) ==> EventKept(s', changes[i]) && FenceReaches(s', changes[i])
  {
    forall i | AppliedIn(answers, n + 1, i) ensures EventKept(s', changes[i]) && FenceReaches(s', changes[i]) {
      assert i < n ==> AppliedIn(answers, n, i);
      KeptNext(s, changes[n], s', answers[n], changes[i]);
    }
  }

  lemma TablesAfter(changes: seq<Change>, answers: seq<Result<Disposition>>, n: nat, s: StoreState, s': StoreState)
    requires n < |changes| == |answers| && TablesOf(changes, answers, n, s)
    requires TablesNext(s, changes[n], s', answers[n])
    ensures TablesOf(changes, answers, n + 1, s')
  {
    AllKept(changes, answers, n, s, s');
    forall id | id in s'.events ensures EventApplied(changes, answers, n + 1, id) {
      EventNext(changes, answers, n, s, s', id);
    }
    forall k | k in s'.revisions ensures FenceApplied(changes, answers, n + 1, s', k) {
      FenceNext(changes, answers, n, s, s', k);
    }
  }

  lemma {:induction false} TablesHold(
    changes: seq<Change>, states: seq<StoreState>, answers: seq<Result<Disposition>>, n: nat)
    requires Answered(changes, states, answers) && n <= |changes|
    ensures TablesOf(changes, answers, n, states[n])
  {
    if n > 0 {
      TablesHold(changes, states, answers, n - 1);
      TablesStep(changes, states, answers, n - 1);
    }
  }

  // The same event was applied before.
  predicate Repeats(changes: seq<Change>, answers: seq<Result<Disposition>>, n: nat, i: int)
    requires n < |changes| == |answers|
  {
    AppliedIn(answers, n, i) && changes[i].event.eventId == changes[n].event.eventId
  }

  // A change of the same record was applied before.
  predicate SameRecord(changes: seq<Change>, answers: seq<Result<Disposition>>, n: nat, i: int)
    requires n < |changes| == |answers|
  {
    && AppliedIn(answers, n, i) && changes[i].event.tenantId == changes[n].event.tenantId
    && changes[i].event.source == changes[n].event.source
    && changes[i].event.partitionKey == changes[n].event.partitionKey
  }

  function VersionOf(changes: seq<Change>, i: int): nat {
    if 0 <= i < |changes| then changes[i].event.sourceVersion else 0
  }

  // An upsert comes with a document of the event's own tenant, source, record, version and id, a
  // delete with none.
  predicate InOrder(change: Change) {
    match change
    case Change(e, Some(d)) =>
      && e.operation.Upsert? && d.tenantId == e.tenantId && d.source.system == e.source
      && d.source.recordId == e.partitionKey && d.source.version == Decimal(e.sourceVersion)
      && d.lineage.eventId == e.eventId
    case Change(e, None) => e.operation.Delete?
  }

  // The two changes say the same: version, operation and, of an upsert, content hash.
  predicate SaySame(a: Change, b: Change) {
    && a.event.sourceVersion == b.event.sourceVersion && a.event.operation == b.event.operation
    && (a.document.Some? && b.document.Some? ==>
          a.document.value.lineage.contentHash == b.document.value.lineage.contentHash)
  }

  lemma FingerprintsSay(a: Change, b: Change)
    requires Paired(a) && Paired(b)
    ensures FingerprintOf(a) == FingerprintOf(b) <==> SaySame(a, b)
  {
  }

  lemma AppliedIsPaired(changes: seq<Change>, states: seq<StoreState>, answers: seq<Result<Disposition>>, i: int)
    requires Answered(changes, states, answers) && AppliedIn(answers, |changes|, i)
    ensures Paired(changes[i])
  {
    assert AnsweredAt(changes, states, answers, i);
  }

  // Some row of the record became valid after the event.
  predicate ValidLater(s: StoreState, e: ChangeEvent) {
    exists row :: row in s.documents && RecordOf(s.documents[row]) == KeyOf(e)
      && s.documents[row].validity.validFrom.Some? && s.documents[row].validity.validFrom.value > e.occurredAt
  }

  // Every answer of every delivery, coherent or not. An unpaired change raises. A change under an
  // event id applied before is a duplicate if it says the same and a conflict otherwise. Under a new
  // event id, what decides is the highest version applied of its record: below it the change is out
  // of order, at it a conflict, and above it the change is applied, unless it is a delete from before
  // some row of the record became valid.
  lemma AnswersExactly(changes: seq<Change>, states: seq<StoreState>, answers: seq<Result<Disposition>>, n: nat)
    requires Answered(changes, states, answers) && n < |changes|
    ensures
      var c, a := changes[n], answers[n];
      if !InOrder(c) then a == Raise(ValueError)
      else if exists i :: Repeats(changes, answers, n, i) then
        forall i :: Repeats(changes, answers, n, i) ==>
          a == if SaySame(changes[i], c) then Ok(Duplicate) else Ok(RevisionConflict)
      else if exists i :: SameRecord(changes, answers, n, i) && VersionOf(changes, i) > c.event.sourceVersion then
        a == Ok(OutOfOrder)
      else if exists i :: SameRecord(changes, answers, n, i) && VersionOf(changes, i) == c.event.sourceVersion then
        a == Ok(RevisionConflict)
      else if c.document.None? && ValidLater(states[n], c.event) then a == Raise(ValueError)
      else a == Ok(Applied)
  {
    var c, s := changes[n], states[n];
    TablesHold(changes, states, answers, n);
    assert AnsweredAt(changes, states, answers, n);
    forall i | Repeats(changes, answers, n, i) ensures c.event.eventId in s.events {
      assert EventKept(s, changes[i]);
    }
    if Paired(c) {
      if c.event.eventId in s.events {
        KnownEvent(changes, states, answers, n);
      } else {
        NewEvent(changes, states, answers, n);
      }
    }
  }

  lemma KnownEvent(changes: seq<Change>, states: seq<StoreState>, answers: seq<Result<Disposition>>, n: nat)
    requires Answered(changes, states, answers) && n < |changes| && TablesOf(changes, answers, n, states[n])
    requires Paired(changes[n]) && changes[n].event.eventId in states[n].events
    requires AnsweredAt(changes, states, answers, n)
    ensures exists i :: Repeats(changes, answers, n, i)
    ensures forall i :: Repeats(changes, answers, n, i) ==>
      answers[n] == if SaySame(changes[i], changes[n]) then Ok(Duplicate) else Ok(RevisionConflict)
  {
    assert EventApplied(changes, answers, n, changes[n].event.eventId);
    var j :| AppliedIn(answers, n, j) && changes[j].event.eventId == changes[n].event.eventId;
    assert Repeats(changes, answers, n, j);
    forall i | Repeats(changes, answers, n, i)
      ensures answers[n] == if SaySame(changes[i], changes[n]) then Ok(Duplicate) else Ok(RevisionConflict)
    {
      assert EventKept(states[n], changes[i]);
      AppliedIsPaired(changes, states, answers, i);
      FingerprintsSay(changes[i], changes[n]);
    }
  }

  lemma NewEvent(changes: seq<Change>, states: seq<StoreState>, answers: seq<Result<Disposition>>, n: nat)
    requires Answered(changes, states, answers) && n < |changes| && TablesOf(changes, answers, n, states[n])
    requires Paired(changes[n]) && changes[n].event.eventId !in states[n].events
    requires AnsweredAt(changes, states, answers, n)
    ensures
      var c, a := changes[n], answers[n];
      if exists i :: SameRecord(changes, answers, n, i) && VersionOf(changes, i) > c.event.sourceVersion then
        a == Ok(OutOfOrder)
      else if exists i :: SameRecord(changes, answers, n, i) && VersionOf(changes, i) == c.event.sourceVersion then
        a == Ok(RevisionConflict)
      else if c.document.None? && ValidLater(states[n], c.event) then a == Raise(ValueError)
      else a == Ok(Applied)
  {
    var c, s := changes[n], states[n];
    var k := KeyOf(c.event);
    assert forall i :: SameRecord(changes, answers, n, i) ==>
        FenceReaches(s, changes[i]) && KeyOf(changes[i].event) == k;
    if k in s.revisions {
      assert FenceApplied(changes, answers, n, s, k);
      var j :| AppliedIn(answers, n, j) && FenceFrom(s, changes[j], k);
      assert SameRecord(changes, answers, n, j);
    }
  }
}
