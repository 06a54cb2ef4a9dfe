/** The indexing worker: acknowledge, announce, then checkpoint, with crashes anywhere in between. */
module IndexerWorker {
  import opened Prelude
  import opened StableIds
  import opened CanonicalIndex
  import opened IndexerPlan

  type Log = seq<RawEvent>
  type Cache = map<(string, string), seq<real>>

  datatype Announcement = Announcement(offset: nat, projection: Projection, appliedAt: int)

  // How far the record at the checkpoint has been taken by the running process.
  datatype Stage =
    | Fetched                                // read, nothing done yet
    | Ready(job: Job)                        // normalized and embedded
    | Failed                                 // a caught error; the dead letter is not yet published
    | Reported                               // the dead letter is durable
    | Acknowledged(owed: Option<Projection>) // the index holds the row
    | Announced                              // the showcase bundle is durable

  // rows, letters, announcements and checkpoint survive a crash; stage and cache do not.
  datatype WorkerState = WorkerState(
    rows: Rows<IndexDocument>, letters: seq<nat>, announcements: seq<Announcement>, checkpoint: nat,
    stage: Stage, cache: Cache)

  const INITIAL := WorkerState(map[], [], [], 0, Fetched, map[])

  datatype Action = Prepare | WriteIndex | Report | Announce(now: int) | Commit | Crash

  // ------------------------------------------------------------ one step

  function Vector(cfg: Config, cache: Cache, s: Normalized): seq<real>
    requires Complete(s.record)
  {
    var key := (DocumentIdOf(s), ContentDigest(s));
    if key in cache then cache[key] else cfg.embed(s.record.content.value)
  }

  function CacheAfter(cfg: Config, cache: Cache, s: Normalized): Cache
    requires Complete(s.record)
  {
    if s.operation.Delete? then cache else cache[(DocumentIdOf(s), ContentDigest(s)) := Vector(cfg, cache, s)]
  }

  function Prepared(cfg: Config, event: RawEvent, w: WorkerState): WorkerState {
    match Parse(event)
    case Raise(_) => w.(stage := Failed)
    case Ok(s) =>
      var cache := CacheAfter(cfg, w.cache, s);
      match JobFor(cfg, s, Vector(cfg, w.cache, s))
      case Raise(_) => w.(stage := Failed, cache := cache)
      case Ok(job) => w.(stage := Ready(job), cache := cache)
  }

  function Restarted(w: WorkerState): WorkerState {
    w.(stage := Fetched, cache := map[])
  }

  // Every step but the first acts on the worker's state alone.
  function Advance(w: WorkerState, a: Action): WorkerState {
    match a
    case Prepare => w
    case WriteIndex =>
      if w.stage.Ready? then
        w.(rows := Written(w.rows, w.stage.job.write),
           stage := if Accepted(w.rows, w.stage.job.write) then Acknowledged(w.stage.job.owed) else Failed)
      else w
    case Report =>
      if w.stage.Failed? then w.(letters := w.letters + [w.checkpoint], stage := Reported) else w
    case Announce(now) =>
      if w.stage.Acknowledged? && w.stage.owed.Some? then
        if BundleValid(w.stage.owed.value, now) then
          w.(announcements := w.announcements + [Announcement(w.checkpoint, w.stage.owed.value, now)],
             stage := Announced)
        else Restarted(w)
      else w
    case Commit =>
      if w.stage.Reported? || w.stage.Announced? || w.stage == Acknowledged(None) then
        w.(checkpoint := w.checkpoint + 1, stage := Fetched)
      else w
    case Crash => Restarted(w)
  }

  function Do(cfg: Config, log: Log, w: WorkerState, a: Action): WorkerState {
    if a.Prepare? && w.stage.Fetched? && w.checkpoint < |log| then Prepared(cfg, log[w.checkpoint], w)
    else Advance(w, a)
  }

  function Stepper(cfg: Config, log: Log): (WorkerState, Action) -> WorkerState {
    (w, a) => Do(cfg, log, w, a)
  }

  function Run(cfg: Config, log: Log, actions: seq<Action>): WorkerState {
    RunFrom(Stepper(cfg, log), INITIAL, actions)
  }

  // ------------------------------------------------------------ the crash-free meaning of a log

  // What each record of the log asks for, with the embedder asked afresh each time.
  type Plans = seq<Result<Job>>

  function PlansOf(cfg: Config, log: Log): (plans: Plans)
    ensures |plans| == |log| && forall n :: 0 <= n < |log| ==> plans[n] == Plan(cfg, log[n])
  {
    seq(|log|, n requires 0 <= n < |log| => Plan(cfg, log[n]))
  }

  function RowsAfter(plans: Plans, n: nat): Rows<IndexDocument>
    requires n <= |plans|
  {
    if n == 0 then map[]
    else
      match plans[n - 1]
      case Raise(_) => RowsAfter(plans, n - 1)
      case Ok(job) => Written(RowsAfter(plans, n - 1), job.write)
  }

  // The record at this offset belongs in the dead-letter topic.
  predicate Dead(plans: Plans, n: nat)
    requires n < |plans|
  {
    match plans[n]
    case Raise(_) => true
    case Ok(job) => !Accepted(RowsAfter(plans, n), job.write)
  }

  // The record at this offset owes the showcase a bundle.
  predicate Owes(plans: Plans, n: nat)
    requires n < |plans|
  {
    !Dead(plans, n) && plans[n].value.owed.Some?
  }

  // ------------------------------------------------------------ the invariant of every run

  ghost predicate CacheSound(cfg: Config, cache: Cache) {
    forall key, content :: key in cache && key.1 == Digest(content) ==> cache[key] == cfg.embed(content)
  }

  ghost predicate StageSound(plans: Plans, w: WorkerState)
    requires w.checkpoint <= |plans|
  {
    var n := w.checkpoint;
    match w.stage
    case Fetched =>
      || w.rows == RowsAfter(plans, n)
      || (n < |plans| && w.rows == RowsAfter(plans, n + 1))
    case Ready(job) =>
      && n < |plans| && plans[n] == Ok(job)
      && (w.rows == RowsAfter(plans, n) || w.rows == RowsAfter(plans, n + 1))
    case Failed => n < |plans| && Dead(plans, n) && w.rows == RowsAfter(plans, n + 1)
    case Reported => n < |plans| && Dead(plans, n) && w.rows == RowsAfter(plans, n + 1) && n in w.letters
    case Acknowledged(owed) =>
      && n < |plans| && !Dead(plans, n) && w.rows == RowsAfter(plans, n + 1)
      && owed == plans[n].value.owed
    case Announced =>
      && n < |plans| && Owes(plans, n) && w.rows == RowsAfter(plans, n + 1) && AnnouncedAt(w, n)
  }

  ghost predicate AnnouncedAt(w: WorkerState, n: nat) {
    exists i :: 0 <= i < |w.announcements| && w.announcements[i].offset == n
  }

  ghost predicate LettersSound(plans: Plans, w: WorkerState)
    requires w.checkpoint <= |plans|
  {
    && (forall n :: 0 <= n < w.checkpoint && Dead(plans, n) ==> n in w.letters)
    && (forall n :: n in w.letters ==> n <= w.checkpoint && n < |plans| && Dead(plans, n))
  }

  ghost predicate AnnouncementsSound(plans: Plans, w: WorkerState)
    requires w.checkpoint <= |plans|
  {
    && (forall n :: 0 <= n < w.checkpoint && Owes(plans, n) ==> AnnouncedAt(w, n))
    && (forall i :: 0 <= i < |w.announcements| ==>
          var a := w.announcements[i];
          && a.offset <= w.checkpoint && a.offset < |plans| && Owes(plans, a.offset)
          && a.projection == plans[a.offset].value.owed.value && BundleValid(a.projection, a.appliedAt))
  }

  ghost predicate Inv(plans: Plans, w: WorkerState) {
    && w.checkpoint <= |plans|
    && StageSound(plans, w)
    && LettersSound(plans, w)
    && AnnouncementsSound(plans, w)
  }

  lemma CacheStep(cfg: Config, cache: Cache, s: Normalized)
    requires CacheSound(cfg, cache) && Complete(s.record)
    ensures Vector(cfg, cache, s) == cfg.embed(s.record.content.value)
    ensures CacheSound(cfg, CacheAfter(cfg, cache, s))
  {
    forall content | ContentDigest(s) == Digest(content) ensures content == s.record.content.value {
      DigestInjective(content, s.record.content.value);
    }
  }

  function StagePlanned(plan: Result<Job>): Stage {
    match plan
    case Raise(_) => Failed
    case Ok(job) => Ready(job)
  }

  // A cached vector never shows: the job is the one a fresh embedding would give.
  lemma PreparedIsPlanned(cfg: Config, event: RawEvent, w: WorkerState)
    requires CacheSound(cfg, w.cache)
    ensures CacheSound(cfg, Prepared(cfg, event, w).cache)
    ensures Prepared(cfg, event, w)
         == w.(stage := StagePlanned(Plan(cfg, event)), cache := Prepared(cfg, event, w).cache)
  {
    if Parse(event).Ok? {
      CacheStep(cfg, w.cache, Parse(event).value);
    }
  }

  // Taking a record up again, whether or not its write had already landed, changes nothing.
  lemma ReplayedWrite(plans: Plans, n: nat, rows: Rows<IndexDocument>, job: Job)
    requires n < |plans| && plans[n] == Ok(job)
    requires rows == RowsAfter(plans, n) || rows == RowsAfter(plans, n + 1)
    ensures Written(rows, job.write) == RowsAfter(plans, n + 1)
    ensures Accepted(rows, job.write) <==> !Dead(plans, n)
  {
    RetryIsIdempotent(RowsAfter(plans, n), job.write);
  }

  lemma AnnounceStep(plans: Plans, w: WorkerState, now: int)
    requires Inv(plans, w)
    ensures Inv(plans, Advance(w, Announce(now)))
  {
    var n, w' := w.checkpoint, Advance(w, Announce(now));
    if w.stage.Acknowledged? && w'.stage.Announced? {
      assert w'.announcements[|w.announcements|].offset == n;
      forall m | 0 <= m < n && Owes(plans, m) ensures AnnouncedAt(w', m) {
        var i :| 0 <= i < |w.announcements| && w.announcements[i].offset == m;
        assert w'.announcements[i].offset == m;
      }
    }
  }

  lemma CommitStep(plans: Plans, w: WorkerState)
    requires Inv(plans, w)
    ensures Inv(plans, Advance(w, Commit))
  {
    var n, w' := w.checkpoint, Advance(w, Commit);
    if w'.checkpoint == n + 1 {
      assert w.stage.Announced? ==> AnnouncedAt(w, n);
      forall m | 0 <= m < n + 1 && Owes(plans, m) ensures AnnouncedAt(w', m) {
        assert AnnouncedAt(w, m);
      }
    }
  }

  lemma AdvanceStep(plans: Plans, w: WorkerState, a: Action)
    requires Inv(plans, w)
    ensures Inv(plans, Advance(w, a))
  {
    match a
    case Prepare =>
    case WriteIndex =>
      if w.stage.Ready? {
        ReplayedWrite(plans, w.checkpoint, w.rows, w.stage.job);
      }
    case Report =>
    case Announce(now) => AnnounceStep(plans, w, now);
    case Commit => CommitStep(plans, w);
    case Crash =>
  }

  lemma PrepareStep(plans: Plans, w: WorkerState, cache: Cache)
    requires Inv(plans, w) && w.stage.Fetched? && w.checkpoint < |plans|
    ensures Inv(plans, w.(stage := StagePlanned(plans[w.checkpoint]), cache := cache))
  {
  }

  lemma PreparedStep(cfg: Config, log: Log, w: WorkerState)
    requires CacheSound(cfg, w.cache) && Inv(PlansOf(cfg, log), w) && w.stage.Fetched? && w.checkpoint < |log|
    ensures var w' := Prepared(cfg, log[w.checkpoint], w); CacheSound(cfg, w'.cache) && Inv(PlansOf(cfg, log), w')
  {
    PreparedIsPlanned(cfg, log[w.checkpoint], w);
    PrepareStep(PlansOf(cfg, log), w, Prepared(cfg, log[w.checkpoint], w).cache);
  }

  // Only a preparation fills the cache, and a restart empties it.
  lemma AdvanceKeepsCache(w: WorkerState, a: Action)
    ensures Advance(w, a).cache == w.cache || Advance(w, a).cache == map[]
  {
  }

  lemma DoStep(cfg: Config, log: Log, w: WorkerState, a: Action)
    requires CacheSound(cfg, w.cache) && Inv(PlansOf(cfg, log), w)
    ensures CacheSound(cfg, Do(cfg, log, w, a).cache) && Inv(PlansOf(cfg, log), Do(cfg, log, w, a))
  {
    if a.Prepare? && w.stage.Fetched? && w.checkpoint < |log| {
      PreparedStep(cfg, log, w);
    } else {
      AdvanceStep(PlansOf(cfg, log), w, a);
      AdvanceKeepsCache(w, a);
    }
  }

  lemma InvHolds(cfg: Config, log: Log, actions: seq<Action>)
    ensures CacheSound(cfg, Run(cfg, log, actions).cache)
    ensures Inv(PlansOf(cfg, log), Run(cfg, log, actions))
  {
    var plans := PlansOf(cfg, log);
    var inv := (w: WorkerState) => CacheSound(cfg, w.cache) && Inv(plans, w);
    forall w: WorkerState, a | inv(w) ensures inv(Do(cfg, log, w, a)) {
      DoStep(cfg, log, w, a);
    }
    RunInvariant(Stepper(cfg, log), inv, INITIAL, actions);
  }

  // ------------------------------------------------------------ main results

  // Crash safety: however often the worker dies and restarts, its durable effects are those of one
  // uninterrupted pass over the log. The index is the crash-free index of the checkpointed prefix,
  // give or take the one record in flight; below the checkpoint a record has a dead letter exactly
  // when it is dead and an announcement exactly when it owes one.
  lemma CrashesAreInvisible(cfg: Config, log: Log, actions: seq<Action>)
    ensures
      var plans, w := PlansOf(cfg, log), Run(cfg, log, actions);
      && w.checkpoint <= |log|
      && (w.rows == RowsAfter(plans, w.checkpoint)
          || (w.checkpoint < |log| && w.rows == RowsAfter(plans, w.checkpoint + 1)))
      && (forall n :: 0 <= n < w.checkpoint ==> (n in w.letters <==> Dead(plans, n)))
      && (forall n :: 0 <= n < w.checkpoint ==> (AnnouncedAt(w, n) <==> Owes(plans, n)))
  {
    InvHolds(cfg, log, actions);
    InvSaysSo(PlansOf(cfg, log), Run(cfg, log, actions));
  }

  lemma InvSaysSo(plans: Plans, w: WorkerState)
    requires Inv(plans, w)
    ensures w.rows == RowsAfter(plans, w.checkpoint)
            || (w.checkpoint < |plans| && w.rows == RowsAfter(plans, w.checkpoint + 1))
    ensures forall n :: 0 <= n < w.checkpoint ==> (n in w.letters <==> Dead(plans, n))
    ensures forall n :: 0 <= n < w.checkpoint ==> (AnnouncedAt(w, n) <==> Owes(plans, n))
  {
    forall n | 0 <= n < w.checkpoint && AnnouncedAt(w, n) ensures Owes(plans, n) {
      var i :| 0 <= i < |w.announcements| && w.announcements[i].offset == n;
    }
  }

  predicate NoLower(before: Rows<IndexDocument>, after: Rows<IndexDocument>) {
    forall row :: row in before ==> row in after && before[row].version <= after[row].version
  }

  // Versions in the index never fall, whatever the worker does next.
  lemma VersionsNeverFall(cfg: Config, log: Log, actions: seq<Action>, more: seq<Action>)
    ensures NoLower(Run(cfg, log, actions).rows, Run(cfg, log, actions + more).rows)
  {
    var w := Run(cfg, log, actions);
    var inv := (x: WorkerState) => NoLower(w.rows, x.rows);
    forall x: WorkerState, a | inv(x) ensures inv(Do(cfg, log, x, a)) {
      RowsRise(cfg, log, x, a);
    }
    RunInvariant(Stepper(cfg, log), inv, w, more);
    RunConcat(Stepper(cfg, log), INITIAL, actions, more);
  }

  lemma RowsRise(cfg: Config, log: Log, w: WorkerState, a: Action)
    ensures NoLower(w.rows, Do(cfg, log, w, a).rows)
  {
  }

  // Every record below the checkpoint is in the dead-letter topic or covered by its row, at its own
  // version or a later one.
  lemma CheckpointedIsCovered(cfg: Config, log: Log, actions: seq<Action>, n: nat)
    requires n < Run(cfg, log, actions).checkpoint <= |log|
    ensures
      var w := Run(cfg, log, actions);
      || n in w.letters
      || (Plan(cfg, log[n]).Ok?
          && var write := Plan(cfg, log[n]).value.write;
             Row(write) in w.rows && write.version <= w.rows[Row(write)].version)
  {
    CrashesAreInvisible(cfg, log, actions);
    var plans, w := PlansOf(cfg, log), Run(cfg, log, actions);
    if !Dead(plans, n) {
      AcceptedStaysCovered(plans, n, w.checkpoint);
      if w.checkpoint < |log| {
        AcceptedStaysCovered(plans, n, w.checkpoint + 1);
      }
    }
  }

  // ------------------------------------------------------------ what is dead, and why

  // An earlier, accepted record holds the row at a higher version, or at this version with other content.
  ghost predicate Overtaken(plans: Plans, n: nat, m: int)
    requires n < |plans| && plans[n].Ok?
  {
    && 0 <= m < n && !Dead(plans, m)
    && var a, b := plans[m].value.write, plans[n].value.write;
       && Row(a) == Row(b)
       && (a.version > b.version || (a.version == b.version && a.document != b.document))
  }

  ghost predicate RowSetBy(plans: Plans, n: nat, row: string, m: int)
    requires n <= |plans| && row in RowsAfter(plans, n)
  {
    && 0 <= m < n && !Dead(plans, m)
    && var w := plans[m].value.write;
       Row(w) == row && RowsAfter(plans, n)[row] == Entry(w.version, w.document)
  }

  lemma {:induction false} EveryRowWasWritten(plans: Plans, n: nat, row: string)
    requires n <= |plans| && row in RowsAfter(plans, n)
    ensures exists m :: RowSetBy(plans, n, row, m)
  {
    if n > 0 {
      var before := RowsAfter(plans, n - 1);
      if row in before && RowsAfter(plans, n)[row] == before[row] {
        EveryRowWasWritten(plans, n - 1, row);
        var m :| RowSetBy(plans, n - 1, row, m);
        assert RowSetBy(plans, n, row, m);
      } else {
        assert RowSetBy(plans, n, row, n - 1);
      }
    }
  }

  lemma {:induction false} AcceptedStaysCovered(plans: Plans, m: nat, n: nat)
    requires m < n <= |plans| && !Dead(plans, m)
    ensures
      var w, rows := plans[m].value.write, RowsAfter(plans, n);
      && Row(w) in rows && w.version <= rows[Row(w)].version
      && (w.version == rows[Row(w)].version ==> w.document == rows[Row(w)].source)
  {
    if m + 1 < n {
      AcceptedStaysCovered(plans, m, n - 1);
    }
  }

  // The dead letters of a log, exactly: malformed records, and late or divergent ones.
  lemma DeadExactly(plans: Plans, n: nat)
    requires n < |plans|
    ensures Dead(plans, n) <==>
      || plans[n].Raise?
      || (var w := plans[n].value.write; w.tenant == "" || w.chunk == "" || w.version < 1)
      || exists m :: Overtaken(plans, n, m)
  {
    if plans[n].Ok? {
      var b := plans[n].value.write;
      var rows := RowsAfter(plans, n);
      if Row(b) in rows {
        EveryRowWasWritten(plans, n, Row(b));
        var m :| RowSetBy(plans, n, Row(b), m);
        assert Dead(plans, n) && Identified(b) ==> Overtaken(plans, n, m);
      }
      if exists m :: Overtaken(plans, n, m) {
        var m :| Overtaken(plans, n, m);
        AcceptedStaysCovered(plans, m, n);
      }
    }
  }

  // ------------------------------------------------------------ the one record that blocks the log

  // An accepted record whose bundle can never be built: the error is raised after the index
  // acknowledged and outside the dead-letter handling.
  predicate Wedges(plans: Plans, n: nat)
    requires n < |plans|
  {
    Owes(plans, n) && !BundleWellFormed(plans[n].value.owed.value)
  }

  // From where the worker stands, some continuation commits the record at its checkpoint exactly
  // when that record does not wedge it.
  lemma CommitsUnlessWedged(cfg: Config, log: Log, actions: seq<Action>)
    requires Run(cfg, log, actions).checkpoint < |log|
    ensures
      var n := Run(cfg, log, actions).checkpoint;
      (exists more :: Run(cfg, log, actions + more).checkpoint > n) <==> !Wedges(PlansOf(cfg, log), n)
  {
    var plans, n := PlansOf(cfg, log), Run(cfg, log, actions).checkpoint;
    if Wedges(plans, n) {
      forall more ensures Run(cfg, log, actions + more).checkpoint <= n {
        WedgeHolds(cfg, log, actions, more, n);
      }
    } else {
      var now := if Owes(plans, n) then plans[n].value.owed.value.source.occurredAt else 0;
      InvHolds(cfg, log, actions);
      PassCommits(cfg, log, Run(cfg, log, actions), now);
      RunConcat(Stepper(cfg, log), INITIAL, actions, PassActions(now));
      assert Run(cfg, log, actions + PassActions(now)).checkpoint > n;
    }
  }

  // An update whose run stamp is a single blank: not empty, so it is a stamp, but no bundle takes it.
  const BLANK_STAMP: RawEvent := RawEvent(
    Some("u"), None,
    Some(TableRow(
      Some("s"), Some("b"), Some("m"), Some("t"), Some("c"), Some("k"), Some(["p"]), Some(1), Some(0),
      None, None, None, None, None, Given(" "), Given("x"))),
    Some(SourceMeta(Some("db"), None, Some("items"), Some(5))), Some(0))

  lemma BlankStampParses()
    ensures var parsed := Parse(BLANK_STAMP);
      && parsed.Ok? && parsed.value.operation.Upsert? && parsed.value.resource == "items"
      && parsed.value.orderingVersion == 5 && parsed.value.record == BLANK_STAMP.after.value
  {
    assert "u" != "c" && "u" != "r" && "u" != "d";
  }

  // A stamped upsert of a table without facts of its own is planned whatever it says.
  lemma StampedPlan(cfg: Config, s: Normalized, vector: seq<real>)
    requires Complete(s.record) && s.operation.Upsert? && s.resource == "items"
    requires NonEmpty(s.record.showcaseRunId) && NonEmpty(s.record.showcaseCorrelationId)
    ensures var job := JobFor(cfg, s, vector);
      && job.Ok? && job.value.write.tenant == cfg.tenant && job.value.write.version == s.orderingVersion
      && job.value.write.chunk == ChunkIdOf(s) && job.value.owed.Some?
      && job.value.owed.value.stamp.runId == s.record.showcaseRunId.value
  {
    assert FactsOf(s) == Ok(None);
  }

  lemma BlankStampPlan(cfg: Config)
    ensures
      var plan := Plan(cfg, BLANK_STAMP);
      && plan.Ok? && plan.value.write.tenant == cfg.tenant && plan.value.write.version == 5
      && plan.value.write.chunk != "" && plan.value.owed.Some? && plan.value.owed.value.stamp.runId == " "
  {
    BlankStampParses();
    var s := Parse(BLANK_STAMP).value;
    StampedPlan(cfg, s, cfg.embed(s.record.content.value));
    assert |ChunkIdOf(s)| >= |"chk" + "_"|;
  }

  // Such records exist: with this one alone in the log, no run ever commits anything.
  lemma BlankStampWedges(cfg: Config)
    requires cfg.tenant != ""
    ensures Wedges(PlansOf(cfg, [BLANK_STAMP]), 0)
    ensures forall actions :: Run(cfg, [BLANK_STAMP], actions).checkpoint == 0
  {
    BlankStampPlan(cfg);
    var plans := PlansOf(cfg, [BLANK_STAMP]);
    assert plans[0] == Plan(cfg, BLANK_STAMP) && RowsAfter(plans, 0) == map[];
    assert IsSpace(" "[0]);
    forall actions ensures Run(cfg, [BLANK_STAMP], actions).checkpoint == 0 {
      WedgeHolds(cfg, [BLANK_STAMP], [], actions, 0);
      assert [] + actions == actions;
    }
  }

  lemma WedgedStep(plans: Plans, w: WorkerState, a: Action, n: nat)
    requires n < |plans| && Wedges(plans, n) && Inv(plans, w) && w.checkpoint <= n
    ensures Advance(w, a).checkpoint <= n
  {
  }

  lemma WedgedDo(cfg: Config, log: Log, w: WorkerState, a: Action, n: nat)
    requires n < |log| && Wedges(PlansOf(cfg, log), n) && w.checkpoint <= n
    requires CacheSound(cfg, w.cache) && Inv(PlansOf(cfg, log), w)
    ensures Do(cfg, log, w, a).checkpoint <= n
  {
    if a.Prepare? && w.stage.Fetched? && w.checkpoint < |log| {
      PreparedIsPlanned(cfg, log[w.checkpoint], w);
    } else {
      WedgedStep(PlansOf(cfg, log), w, a, n);
    }
  }

  lemma WedgeHolds(cfg: Config, log: Log, actions: seq<Action>, more: seq<Action>, n: nat)
    requires n < |log| && Wedges(PlansOf(cfg, log), n) && Run(cfg, log, actions).checkpoint <= n
    ensures Run(cfg, log, actions + more).checkpoint <= n
  {
    var plans := PlansOf(cfg, log);
    var inv := (w: WorkerState) => CacheSound(cfg, w.cache) && Inv(plans, w) && w.checkpoint <= n;
    forall w: WorkerState, a | inv(w) ensures inv(Do(cfg, log, w, a)) {
      DoStep(cfg, log, w, a);
      WedgedDo(cfg, log, w, a, n);
    }
    InvHolds(cfg, log, actions);
    RunInvariant(Stepper(cfg, log), inv, Run(cfg, log, actions), more);
    RunConcat(Stepper(cfg, log), INITIAL, actions, more);
  }

  // One undisturbed pass over a record, after a restart.
  function PassActions(now: int): seq<Action> {
    [Crash] + [Prepare] + [WriteIndex] + [Report] + [Announce(now)] + [Commit]
  }

  function Finish(w: WorkerState, now: int): WorkerState {
    Advance(Advance(Advance(Advance(w, WriteIndex), Report), Announce(now)), Commit)
  }

  // A step other than a preparation, after some actions that led to x.
  lemma PassStep(cfg: Config, log: Log, w: WorkerState, done: seq<Action>, x: WorkerState, a: Action)
    requires !a.Prepare? && RunFrom(Stepper(cfg, log), w, done) == x
    ensures RunFrom(Stepper(cfg, log), w, done + [a]) == Advance(x, a)
  {
    RunThen(Stepper(cfg, log), w, done, a);
  }

  lemma PassPrepares(cfg: Config, log: Log, w: WorkerState)
    ensures RunFrom(Stepper(cfg, log), w, [Crash] + [Prepare]) == Do(cfg, log, Restarted(w), Prepare)
  {
    RunOne(Stepper(cfg, log), w, Crash);
    RunThen(Stepper(cfg, log), w, [Crash], Prepare);
  }

  lemma PassRuns(cfg: Config, log: Log, w: WorkerState, now: int)
    ensures RunFrom(Stepper(cfg, log), w, PassActions(now)) == Finish(Do(cfg, log, Restarted(w), Prepare), now)
  {
    var s2 := [Crash] + [Prepare];
    var x2 := Do(cfg, log, Restarted(w), Prepare);
    PassPrepares(cfg, log, w);
    AdvancesRun(cfg, log, w, s2, x2, now);
  }

  lemma AdvancesRun(cfg: Config, log: Log, w: WorkerState, s2: seq<Action>, x2: WorkerState, now: int)
    requires RunFrom(Stepper(cfg, log), w, s2) == x2
    ensures RunFrom(Stepper(cfg, log), w, s2 + [WriteIndex] + [Report] + [Announce(now)] + [Commit]) == Finish(x2, now)
  {
    var x3 := Advance(x2, WriteIndex);
    PassStep(cfg, log, w, s2, x2, WriteIndex);
    var x4 := Advance(x3, Report);
    PassStep(cfg, log, w, s2 + [WriteIndex], x3, Report);
    var x5 := Advance(x4, Announce(now));
    PassStep(cfg, log, w, s2 + [WriteIndex] + [Report], x4, Announce(now));
    PassStep(cfg, log, w, s2 + [WriteIndex] + [Report] + [Announce(now)], x5, Commit);
  }

  lemma FinishCommits(plans: Plans, w: WorkerState, now: int)
    requires Inv(plans, w) && (w.stage.Ready? || w.stage.Failed?)
    requires Owes(plans, w.checkpoint) ==> BundleValid(plans[w.checkpoint].value.owed.value, now)
    ensures Finish(w, now).checkpoint == w.checkpoint + 1
  {
    AdvanceStep(plans, w, WriteIndex);
    var w1 := Advance(w, WriteIndex);
    AdvanceStep(plans, w1, Report);
  }

  lemma PassCommits(cfg: Config, log: Log, w: WorkerState, now: int)
    requires CacheSound(cfg, w.cache) && Inv(PlansOf(cfg, log), w) && w.checkpoint < |log|
    requires
      var plans := PlansOf(cfg, log);
      Owes(plans, w.checkpoint) ==> BundleValid(plans[w.checkpoint].value.owed.value, now)
    ensures RunFrom(Stepper(cfg, log), w, PassActions(now)).checkpoint == w.checkpoint + 1
  {
    PassRuns(cfg, log, w, now);
    DoStep(cfg, log, w, Crash);
    DoStep(cfg, log, Restarted(w), Prepare);
    PreparedIsPlanned(cfg, log[w.checkpoint], Restarted(w));
    FinishCommits(PlansOf(cfg, log), Do(cfg, log, Restarted(w), Prepare), now);
  }
}
