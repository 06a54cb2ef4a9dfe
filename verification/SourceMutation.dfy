/** Concurrent showcase starts: one transaction per call, interleaved statement by statement. */
module SourceMutation {
  import opened Prelude

  // Where a call stands: which statement comes next, and what its open transaction holds.
  datatype Stage =
    | Selecting                 // SELECT the run's row
    | Inserting                 // INSERT ... ON CONFLICT DO NOTHING
    | Reselecting               // the insert found a committed row
    | Inserted                  // UPDATE the rule, bumping its version
    | Updated(version: nat)     // UPDATE the run's row with that version
    | Recorded(version: nat)    // COMMIT
    | Returned(version: nat)
    | Raised

  datatype Call = Call(run: string, stage: Stage)

  // The committed tables and the calls in progress. No rule row is a source that was never seeded.
  datatype State = State(runs: map<string, nat>, rule: Option<nat>, calls: seq<Call>)

  datatype Action = Begin(run: string) | Step(call: nat) | Abort(call: nat)

  predicate Active(c: Call) {
    !c.stage.Returned? && !c.stage.Raised?
  }

  // An open transaction that has inserted the run's row, and one that has locked the rule.
  predicate HoldsRun(c: Call) {
    c.stage.Inserted? || HoldsRule(c)
  }

  predicate HoldsRule(c: Call) {
    c.stage.Updated? || c.stage.Recorded?
  }

  predicate RunHeld(s: State, run: string) {
    exists i :: 0 <= i < |s.calls| && HoldsRun(s.calls[i]) && s.calls[i].run == run
  }

  predicate RuleHeld(s: State) {
    exists i :: 0 <= i < |s.calls| && HoldsRule(s.calls[i])
  }

  function At(s: State, i: nat, stage: Stage): State
    requires i < |s.calls|
  {
    s.(calls := s.calls[i := s.calls[i].(stage := stage)])
  }

  // One statement of one call. A statement that must wait for a lock leaves everything as it is.
  function Advance(s: State, i: nat): State
    requires i < |s.calls|
  {
    var run := s.calls[i].run;
    match s.calls[i].stage
    case Selecting => At(s, i, if run in s.runs then Returned(s.runs[run]) else Inserting)
    case Inserting =>
      if run in s.runs then At(s, i, Reselecting)
      else if RunHeld(s, run) then s
      else At(s, i, Inserted)
    case Reselecting => At(s, i, if run in s.runs then Returned(s.runs[run]) else Raised)
    case Inserted =>
      if s.rule.None? then At(s, i, Raised)
      else if RuleHeld(s) then s
      else At(s, i, Updated(s.rule.value + 1))
    case Updated(version) => At(s, i, Recorded(version))
    case Recorded(version) =>
      At(s.(runs := s.runs[run := version], rule := Some(version)), i, Returned(version))
    case _ => s
  }

  function Do(s: State, a: Action): State {
    match a
    case Begin(run) => s.(calls := s.calls + [Call(run, Selecting)])
    case Step(i) => if i < |s.calls| then Advance(s, i) else s
    case Abort(i) => if i < |s.calls| && Active(s.calls[i]) then At(s, i, Raised) else s
  }

  function Initial(rule: Option<nat>): State {
    State(map[], rule, [])
  }

  function Run(rule: Option<nat>, actions: seq<Action>): State {
    RunFrom(Do, Initial(rule), actions)
  }

  // ---------------------------------------------------------------- the invariant

  predicate Issued(runs: map<string, nat>, version: nat) {
    exists run :: run in runs && runs[run] == version
  }

  // The committed versions are exactly first+1 .. rule, one per committed run.
  ghost predicate VersionsAreDense(s: State, first: Option<nat>) {
    && s.rule.Some? == first.Some?
    && (first.None? ==> s.runs == map[])
    && (first.Some? ==>
          && s.rule.value == first.value + |s.runs|
          && (forall v: nat :: Issued(s.runs, v) <==> first.value < v <= s.rule.value)
          && (forall a, b :: a in s.runs && b in s.runs && s.runs[a] == s.runs[b] ==> a == b))
  }

  // Locks are exclusive; a holder's run is not committed and its version is the next one.
  predicate LocksAreExclusive(s: State) {
    && (forall i, j :: 0 <= i < j < |s.calls| ==> !(HoldsRule(s.calls[i]) && HoldsRule(s.calls[j])))
    && (forall i, j :: 0 <= i < j < |s.calls| && s.calls[i].run == s.calls[j].run ==>
          !(HoldsRun(s.calls[i]) && HoldsRun(s.calls[j])))
  }

  predicate CallFits(s: State, c: Call) {
    && (HoldsRun(c) ==> c.run !in s.runs)
    && (HoldsRule(c) ==> s.rule.Some? && c.stage.version == s.rule.value + 1)
    && (c.stage.Returned? ==> c.run in s.runs && s.runs[c.run] == c.stage.version)
    && (c.stage.Reselecting? ==> c.run in s.runs)
  }

  predicate CallsFit(s: State) {
    forall i :: 0 <= i < |s.calls| ==> CallFits(s, s.calls[i])
  }

  ghost predicate Inv(s: State, first: Option<nat>) {
    VersionsAreDense(s, first) && LocksAreExclusive(s) && CallsFit(s)
  }

  // A call that gains a lock nobody holds, or gains none, leaves locks exclusive.
  lemma StageKeepsLocks(s: State, i: nat, stage: Stage)
    requires LocksAreExclusive(s) && i < |s.calls|
    requires var c := Call(s.calls[i].run, stage);
      && (HoldsRule(c) ==> HoldsRule(s.calls[i]) || !RuleHeld(s))
      && (HoldsRun(c) ==> HoldsRun(s.calls[i]) || !RunHeld(s, c.run))
    ensures LocksAreExclusive(At(s, i, stage))
  {
  }

  // A statement moves its own call alone, and takes a lock only if nobody holds it.
  lemma AdvanceGains(s: State, i: nat)
    requires i < |s.calls| && Advance(s, i) != s
    ensures var stage := Advance(s, i).calls[i].stage;
      var c := Call(s.calls[i].run, stage);
      && Advance(s, i).calls == At(s, i, stage).calls
      && (HoldsRule(c) ==> HoldsRule(s.calls[i]) || !RuleHeld(s))
      && (HoldsRun(c) ==> HoldsRun(s.calls[i]) || !RunHeld(s, c.run))
  {
  }

  lemma LocksKept(s: State, a: Action)
    requires LocksAreExclusive(s)
    ensures LocksAreExclusive(Do(s, a))
  {
    var t := Do(s, a);
    match a
    case Begin(run) =>
    case Step(i) =>
      if i < |s.calls| && t != s {
        AdvanceGains(s, i);
        StageKeepsLocks(s, i, t.calls[i].stage);
      }
    case Abort(i) =>
      if i < |s.calls| {
        StageKeepsLocks(s, i, Raised);
      }
  }

  lemma CallsKept(s: State, a: Action)
    requires LocksAreExclusive(s) && CallsFit(s)
    ensures CallsFit(Do(s, a))
  {
    var t := Do(s, a);
    forall j | 0 <= j < |t.calls| ensures CallFits(t, t.calls[j]) {
      assert j < |s.calls| ==> CallFits(s, s.calls[j]);
    }
  }

  lemma VersionsKept(s: State, a: Action, first: Option<nat>)
    requires Inv(s, first)
    ensures VersionsAreDense(Do(s, a), first)
  {
    var t := Do(s, a);
    if a.Step? && a.call < |s.calls| && s.calls[a.call].stage.Recorded? {
      var c := s.calls[a.call];
      assert CallFits(s, c);
      CommitKeepsDense(s, t, first, c.run);
    }
  }

  lemma CommitKeepsDense(s: State, t: State, first: Option<nat>, run: string)
    requires VersionsAreDense(s, first) && s.rule.Some? && run !in s.runs
    requires t.rule == Some(s.rule.value + 1) && t.runs == s.runs[run := s.rule.value + 1]
    ensures VersionsAreDense(t, first)
  {
    forall v: nat ensures Issued(t.runs, v) <==> Issued(s.runs, v) || v == t.rule.value {
      if Issued(s.runs, v) {
        var r :| r in s.runs && s.runs[r] == v;
        assert t.runs[r] == v;
      }
      if v == t.rule.value {
        assert t.runs[run] == v;
      }
    }
    forall r | r in s.runs ensures s.runs[r] < t.rule.value {
      assert Issued(s.runs, s.runs[r]);
    }
  }

  lemma InvHolds(rule: Option<nat>, actions: seq<Action>)
    ensures Inv(Run(rule, actions), rule)
  {
    var inv := (s: State) => Inv(s, rule);
    forall s: State, a | inv(s) ensures inv(Do(s, a)) {
      LocksKept(s, a);
      CallsKept(s, a);
      VersionsKept(s, a, rule);
    }
    RunInvariant(Do, inv, Initial(rule), actions);
  }

  // ---------------------------------------------------------------- what every interleaving gives

  // The source version rose by the number of committed runs, and those hold exactly the versions
  // in between, each one of them.
  lemma EachRunBumpsOnce(first: nat, actions: seq<Action>)
    ensures var s := Run(Some(first), actions);
      && s.rule == Some(first + |s.runs|)
      && (forall v: nat :: Issued(s.runs, v) <==> first < v <= first + |s.runs|)
      && (forall a, b :: a in s.runs && b in s.runs ==> (s.runs[a] == s.runs[b] <==> a == b))
  {
    InvHolds(Some(first), actions);
  }

  // All callers of one run get one version; callers of different runs get different ones.
  lemma CallersAgree(rule: Option<nat>, actions: seq<Action>, i: nat, j: nat)
    requires var s := Run(rule, actions);
      i < |s.calls| && j < |s.calls| && s.calls[i].stage.Returned? && s.calls[j].stage.Returned?
    ensures var s := Run(rule, actions);
      && s.calls[i].run in s.runs && s.calls[i].stage.version == s.runs[s.calls[i].run] >= 1
      && (s.calls[i].stage.version == s.calls[j].stage.version <==> s.calls[i].run == s.calls[j].run)
  {
    InvHolds(rule, actions);
    var s := Run(rule, actions);
    assert CallFits(s, s.calls[i]) && CallFits(s, s.calls[j]);
    assert Issued(s.runs, s.runs[s.calls[i].run]);
  }

  // A call that is not aborted raises only when the source record is missing: in particular the
  // select after a lost insert always finds the winner's row.
  lemma OnlyAMissingRuleRaises(rule: Option<nat>, actions: seq<Action>, i: nat)
    requires i < |Run(rule, actions).calls| && Active(Run(rule, actions).calls[i])
    ensures Advance(Run(rule, actions), i).calls[i].stage.Raised? <==>
      Run(rule, actions).calls[i].stage.Inserted? && rule.None?
  {
    InvHolds(rule, actions);
    assert CallFits(Run(rule, actions), Run(rule, actions).calls[i]);
  }

  // ---------------------------------------------------------------- no deadlock

  lemma SomeCallCanMove(s: State)
    requires LocksAreExclusive(s)
    requires exists i :: 0 <= i < |s.calls| && Active(s.calls[i])
    ensures exists i :: 0 <= i < |s.calls| && Active(s.calls[i]) && Advance(s, i) != s
  {
    var i :| 0 <= i < |s.calls| && Active(s.calls[i]);
    var mover := i;
    if h :| 0 <= h < |s.calls| && HoldsRule(s.calls[h]) {
      mover := h;
    } else if h :| 0 <= h < |s.calls| && HoldsRun(s.calls[h]) {
      mover := h;
    }
    assert Advance(s, mover).calls[mover].stage != s.calls[mover].stage;
  }

  function StatementsLeft(stage: Stage): nat {
    match stage
    case Selecting => 5
    case Inserting => 4
    case Inserted => 3
    case Updated(_) => 2
    case Reselecting => 1
    case Recorded(_) => 1
    case _ => 0
  }

  function Left(calls: seq<Call>): nat {
    if calls == [] then 0 else StatementsLeft(calls[0].stage) + Left(calls[1..])
  }

  lemma {:induction false} LeftAfter(calls: seq<Call>, i: nat, c: Call)
    requires i < |calls|
    ensures Left(calls[i := c]) == Left(calls) - StatementsLeft(calls[i].stage) + StatementsLeft(c.stage)
  {
    if i == 0 {
      assert calls[i := c][1..] == calls[1..];
    } else {
      assert calls[i := c][1..] == calls[1..][i - 1 := c];
      LeftAfter(calls[1..], i - 1, c);
    }
  }

  // A statement that runs changes its own call alone, to a stage nearer the end.
  lemma AdvanceShape(s: State, i: nat)
    requires i < |s.calls| && Advance(s, i) != s
    ensures var after := Advance(s, i).calls;
      && |after| == |s.calls| && after == s.calls[i := after[i]]
      && StatementsLeft(after[i].stage) < StatementsLeft(s.calls[i].stage)
  {
  }

  lemma AdvanceMoves(s: State, i: nat)
    requires i < |s.calls| && Advance(s, i) != s
    ensures Left(Advance(s, i).calls) < Left(s.calls) && |Advance(s, i).calls| == |s.calls|
  {
    AdvanceShape(s, i);
    LeftAfter(s.calls, i, Advance(s, i).calls[i]);
  }

  // From every reachable state the calls in progress can all be run to their end, without an
  // abort and without a new call; and no schedule of statements is longer than Left.
  lemma {:induction false} EveryCallCanFinish(s: State) returns (schedule: seq<Action>)
    requires LocksAreExclusive(s)
    ensures |schedule| <= Left(s.calls) && forall k :: 0 <= k < |schedule| ==> schedule[k].Step?
    ensures var t := RunFrom(Do, s, schedule);
      |t.calls| == |s.calls| && forall i :: 0 <= i < |t.calls| ==> !Active(t.calls[i])
    decreases Left(s.calls)
  {
    if exists i :: 0 <= i < |s.calls| && Active(s.calls[i]) {
      SomeCallCanMove(s);
      var i :| 0 <= i < |s.calls| && Active(s.calls[i]) && Advance(s, i) != s;
      AdvanceMoves(s, i);
      LocksKept(s, Step(i));
      var rest := EveryCallCanFinish(Do(s, Step(i)));
      schedule := [Step(i)] + rest;
      RunConcat(Do, s, [Step(i)], rest);
      RunOne(Do, s, Step(i));
    } else {
      schedule := [];
    }
  }

  // ---------------------------------------------------------------- one call by itself

  class ShowcaseTables {
    var runs: map<string, nat>
    var rule: Option<nat>

    constructor (rule: Option<nat>)
      ensures this.runs == map[] && this.rule == rule
    {
      this.runs := map[];
      this.rule := rule;
    }

    // The transaction of one start with no other beside it; a raise rolls it back.
    method Start(run: string) returns (r: Result<nat>)
      modifies this
      ensures run in old(runs) ==> r == Ok(old(runs)[run]) && runs == old(runs) && rule == old(rule)
      ensures run !in old(runs) && old(rule).None? ==> r == Raise(RuntimeError) && runs == old(runs) && rule == None
      ensures run !in old(runs) && old(rule).Some? ==>
        && r == Ok(old(rule).value + 1) && rule == Some(old(rule).value + 1)
        && runs == old(runs)[run := old(rule).value + 1]
    {
      if run in runs {
        return Ok(runs[run]);
      }
      if rule.None? {
        return Raise(RuntimeError);
      }
      var version := rule.value + 1;
      rule := Some(version);
      runs := runs[run := version];
      return Ok(version);
    }
  }

  function Serial(s: State, run: string): State {
    if run in s.runs then s.(calls := [Call(run, Returned(s.runs[run]))])
    else if s.rule.None? then s.(calls := [Call(run, Raised)])
    else
      var version := s.rule.value + 1;
      State(s.runs[run := version], Some(version), [Call(run, Returned(version))])
  }

  function Alone(s: State, n: nat): State
    decreases n
  {
    if n == 0 then s else Alone(Do(s, Step(0)), n - 1)
  }

  lemma AloneStep(s: State, n: nat)
    requires n > 0 && |s.calls| == 1
    ensures Alone(s, n) == Alone(Advance(s, 0), n - 1)
  {
  }

  // The interleaved machine, given one call and its five statements, ends where the method does.
  lemma AloneItIsStart(s: State, run: string)
    requires s.calls == []
    ensures Alone(Do(s, Begin(run)), 5) == Serial(s, run)
  {
    var begun := Do(s, Begin(run));
    assert begun.calls == [Call(run, Selecting)];
    AloneStep(begun, 5);
    var selected := Advance(begun, 0);
    AloneStep(selected, 4);
    var inserted := Advance(selected, 0);
    AloneStep(inserted, 3);
    var updated := Advance(inserted, 0);
    AloneStep(updated, 2);
    var recorded := Advance(updated, 0);
    AloneStep(recorded, 1);
    if run in s.runs {
      assert selected.calls == [Call(run, Returned(s.runs[run]))];
    } else {
      assert inserted.calls == [Call(run, Inserted)];
      if s.rule.None? {
        assert updated.calls == [Call(run, Raised)];
      } else {
        assert recorded.calls == [Call(run, Recorded(s.rule.value + 1))];
      }
    }
  }
}
