/** What every run of memory operations keeps: authority, namespaces, and who can displace what. */
module MemoryHistory {
  import opened Prelude
  import opened Domain
  import opened StableIds
  import opened MemoryAuthority

  datatype Action =
    | RememberAgent(namespace: MemoryNamespace, memoryType: MemoryType, content: string, now: int)
    | Store(record: MemoryRecord, actor: Actor)
    | Accept(id: string, namespace: MemoryNamespace, actor: Actor)
    | Correct(id: string, namespace: MemoryNamespace, content: string, actor: Actor, now: int)
    | Expire(id: string, namespace: MemoryNamespace, expiresAt: int, actor: Actor)
    | Delete(id: string, namespace: MemoryNamespace, actor: Actor)

  // A record that its constructor refuses cannot be handed to store.
  function Do(m: Records, a: Action): Records {
    match a
    case RememberAgent(n, t, content, now) => RememberAgentOutcome(m, n, t, content, now).records
    case Store(r, actor) => if WellFormed(r) then StoreOutcome(m, r, actor).records else m
    case Accept(id, n, actor) => AcceptOutcome(m, id, n, actor).records
    case Correct(id, n, content, actor, now) => CorrectOutcome(m, id, n, content, actor, now).records
    case Expire(id, n, at, actor) => ExpireOutcome(m, id, n, at, actor).records
    case Delete(id, n, actor) => DeleteOutcome(m, id, n, actor).records
  }

  function Run(m: Records, actions: seq<Action>): Records {
    RunFrom(Do, m, actions)
  }

  predicate ByAgent(a: Action) {
    a.RememberAgent? || a.actor.Agent?
  }

  // ---------------------------------------------------------------- authority in every state

  predicate Authentic(r: MemoryRecord) {
    AgentWriteAllowed(r) || HumanWriteAllowed(r) || SystemWriteAllowed(r)
  }

  predicate Authority(m: Records) {
    Keyed(m) && forall id :: id in m ==> WellFormed(m[id]) && Authentic(m[id])
  }

  lemma PutKeepsAuthority(m: Records, r: MemoryRecord)
    requires Authority(m) && WellFormed(r) && Authentic(r)
    ensures Authority(m[r.memoryId := r])
  {
  }

  lemma CorrectKeepsAuthority(m: Records, id: string, n: MemoryNamespace, content: string, actor: Actor, now: int)
    requires Authority(m)
    ensures Authority(CorrectOutcome(m, id, n, content, actor, now).records)
  {
    var out := CorrectOutcome(m, id, n, content, actor, now);
    if out.result.Ok? {
      var superseded := m[id].(supersededBy := Some(out.result.value.memoryId));
      PutKeepsAuthority(m, superseded);
      PutKeepsAuthority(m[id := superseded], out.result.value);
    }
  }

  lemma DoKeepsAuthority(m: Records, a: Action)
    requires Authority(m)
    ensures Authority(Do(m, a))
  {
    match a
    case RememberAgent(n, t, content, now) =>
      if NonBlank(content) {
        MemoryIdIsNotBlank(n, t, content);
        PutKeepsAuthority(m, AgentRecord(n, t, content, now));
      }
    case Store(r, actor) =>
    case Accept(id, n, actor) =>
      var out := AcceptOutcome(m, id, n, actor);
      if out.result.Ok? {
        PutKeepsAuthority(m, out.result.value);
      }
    case Correct(id, n, content, actor, now) => CorrectKeepsAuthority(m, id, n, content, actor, now);
    case Expire(id, n, at, actor) =>
      var out := ExpireOutcome(m, id, n, at, actor);
      if out.result.Ok? {
        PutKeepsAuthority(m, out.result.value);
      }
    case Delete(id, n, actor) =>
  }

  // In every reachable repository a record is either proposed, untrusted and of agent origin, or
  // not proposed with exactly the human or exactly the system pair of origin and trust.
  lemma EveryRecordIsAuthentic(actions: seq<Action>)
    ensures Authority(Run(map[], actions))
    ensures forall id :: id in Run(map[], actions) ==>
      var r := Run(map[], actions)[id];
      if r.proposed then r.trust == Untrusted && r.origin in {Proposed, AgentDerived}
      else (r.origin == Origin.UserAsserted && r.trust == Trust.UserAsserted)
           || (r.origin == SystemVerified && r.trust == Verified)
  {
    forall m: Records, a: Action | Authority(m) ensures Authority(Do(m, a)) {
      DoKeepsAuthority(m, a);
    }
    RunInvariant(Do, Authority, map[], actions);
  }

  // Whatever an agent step adds or changes is proposed and untrusted, and it removes nothing.
  lemma AgentsOnlyPropose(m: Records, a: Action, id: string)
    requires Authority(m) && ByAgent(a)
    ensures id in m ==> id in Do(m, a)
    ensures id in Do(m, a) && (id !in m || Do(m, a)[id] != m[id]) ==>
      Do(m, a)[id].proposed && Do(m, a)[id].trust == Untrusted
  {
  }

  // ---------------------------------------------------------------- what agents can displace

  // The id an agent step would write, when the step is not refused.
  function AgentTarget(a: Action): Option<string>
    requires ByAgent(a)
  {
    match a
    case RememberAgent(n, t, content, _) => if NonBlank(content) then Some(MemoryId(n, t, content)) else None
    case Store(r, _) => if WellFormed(r) && AgentWriteAllowed(r) then Some(r.memoryId) else None
    case _ => None
  }

  lemma AgentStep(m: Records, a: Action, id: string)
    requires ByAgent(a)
    ensures AgentTarget(a) != Some(id) ==> (id in Do(m, a) <==> id in m) && (id in m ==> Do(m, a)[id] == m[id])
    ensures AgentTarget(a) == Some(id) ==> id in Do(m, a) && Do(m, a)[id].proposed
  {
    if a.RememberAgent? {
      MemoryIdIsNotBlank(a.namespace, a.memoryType, a.content);
    }
  }

  lemma MemoryIdIsNotBlank(namespace: MemoryNamespace, memoryType: MemoryType, content: string)
    ensures NonBlank(MemoryId(namespace, memoryType, content))
  {
    assert MemoryId(namespace, memoryType, content)[0] == 'm';
  }

  // The specification says agent memory cannot overwrite authoritative memory. The code keeps an
  // authoritative record through a run of agent steps exactly when none of them writes its id.
  lemma {:induction false} AgentsDisplaceExactly(m: Records, actions: seq<Action>, id: string)
    requires id in m && !m[id].proposed
    requires forall i :: 0 <= i < |actions| ==> ByAgent(actions[i])
    ensures id in Run(m, actions)
    ensures Run(m, actions)[id] == m[id] <==> forall i :: 0 <= i < |actions| ==> AgentTarget(actions[i]) != Some(id)
    ensures Run(m, actions)[id] != m[id] ==> Run(m, actions)[id].proposed
  {
    if actions != [] {
      var n := |actions| - 1;
      AgentsDisplaceExactly(m, actions[..n], id);
      AgentStep(Run(m, actions[..n]), actions[n], id);
      if forall i :: 0 <= i < n ==> AgentTarget(actions[..n][i]) != Some(id) {
        assert forall i :: 0 <= i < n ==> actions[..n][i] == actions[i];
      } else {
        var i :| 0 <= i < n && AgentTarget(actions[..n][i]) == Some(id);
        assert actions[i] == actions[..n][i];
      }
    }
  }

  // For one: a human accepts a memory, the agent says the same thing again, and it is a proposal.
  lemma RepeatingDemotesAcceptedMemory(n: MemoryNamespace, t: MemoryType, content: string, now: int, later: int)
    requires NonBlank(content)
    ensures var id := MemoryId(n, t, content);
      var accepted := Run(map[], [RememberAgent(n, t, content, now), Accept(id, n, Human)]);
      && id in accepted && !accepted[id].proposed && accepted[id].trust == Trust.UserAsserted
      && var again := Do(accepted, RememberAgent(n, t, content, later));
         id in again && again[id].proposed && again[id].trust == Untrusted
  {
    var id := MemoryId(n, t, content);
    MemoryIdIsNotBlank(n, t, content);
    var first, second := RememberAgent(n, t, content, now), Accept(id, n, Human);
    RunThen(Do, map[], [first], second);
    RunOne(Do, map[], first);
    assert [first] + [second] == [first, second];
  }

  // ---------------------------------------------------------------- correction

  // Right after a correction, at any instant and under either sharing policy, recall shows the
  // replacement and not the original.
  lemma CorrectionTakesEffect(m: Records, id: string, n: MemoryNamespace, content: string, actor: Actor, now: int,
                              share: bool, instant: int, recalled: seq<MemoryRecord>)
    requires Authority(m) && CorrectOutcome(m, id, n, content, actor, now).result.Ok?
    requires var out := CorrectOutcome(m, id, n, content, actor, now);
      Lists(recalled, Visible(out.records, n, share, instant))
    ensures var out := CorrectOutcome(m, id, n, content, actor, now);
      && out.result.value in recalled
      && out.result.value.content == content && out.result.value.supersedes == Some(id)
      && out.result.value.memoryType == m[id].memoryType && out.result.value.citations == m[id].citations
      && out.result.value.namespace == n && out.result.value.createdAt == now && out.result.value.expiresAt == None
      && (out.result.value.origin, out.result.value.trust)
         == (if actor.Human? then (Origin.UserAsserted, Trust.UserAsserted) else (SystemVerified, Verified))
    ensures var out := CorrectOutcome(m, id, n, content, actor, now);
      id in out.records && out.records[id] == m[id].(supersededBy := Some(out.result.value.memoryId))
    ensures forall r :: r in recalled ==> r.memoryId != id
    ensures forall other :: other != id && other != MemoryId(n, m[id].memoryType, content) && other in m ==>
      var after := CorrectOutcome(m, id, n, content, actor, now).records; other in after && after[other] == m[other]
  {
    var out := CorrectOutcome(m, id, n, content, actor, now);
    var replacement := out.result.value;
    assert out.records[replacement.memoryId] == replacement;
    assert m[id].memoryId == id;
    assert out.records[id].supersededBy.Some?;
  }

  // Which of the operations on an existing record raise what: an agent is turned away first, then a
  // missing and a foreign record, then what the operation itself cannot do.
  lemma RefusalsExactly(m: Records, id: string, n: MemoryNamespace, content: string, at: int, actor: Actor, now: int)
    requires Authority(m)
    ensures
      var accepted := AcceptOutcome(m, id, n, actor).result;
      var corrected := CorrectOutcome(m, id, n, content, actor, now).result;
      var expired, deleted := ExpireOutcome(m, id, n, at, actor).result, DeleteOutcome(m, id, n, actor).result;
      if actor.Agent? || (id in m && m[id].namespace != n) then
        accepted == corrected == expired == Raise(PermissionError) && deleted == Raise(PermissionError)
      else if id !in m then
        accepted == corrected == expired == Raise(KeyError) && deleted == Raise(KeyError)
      else
        && (accepted == Raise(ValueError) <==> !m[id].proposed) && (m[id].proposed ==> accepted.Ok?)
        && (corrected == Raise(ValueError) <==> !NonBlank(content) || MemoryId(n, m[id].memoryType, content) == id)
        && (corrected.Ok? <==> NonBlank(content) && MemoryId(n, m[id].memoryType, content) != id)
        && (expired == Raise(ValueError) <==> at <= m[id].createdAt) && (m[id].createdAt < at ==> expired.Ok?)
        && deleted.Ok?
  {
    if id in m {
      MemoryIdIsNotBlank(n, m[id].memoryType, content);
    }
  }

  // Absent or superseded.
  predicate Hidden(m: Records, id: string) {
    id in m ==> m[id].supersededBy.Some?
  }

  // That is: recall shows it to nobody, under either policy, at no instant.
  lemma HiddenMeansNeverRecalled(m: Records, id: string)
    ensures Hidden(m, id) <==> forall n, share, instant :: id !in Visible(m, n, share, instant)
  {
    if !Hidden(m, id) {
      var instant := if m[id].expiresAt.Some? then m[id].expiresAt.value - 1 else 0;
      assert id in Visible(m, m[id].namespace, false, instant);
    }
  }

  // A step that shows the id: the same text remembered again, an allowed raw store of a record not
  // superseded, or a correction of another record back to this one.
  predicate Revives(m: Records, a: Action, id: string) {
    match a
    case RememberAgent(n, t, content, _) => NonBlank(content) && MemoryId(n, t, content) == id
    case Store(r, actor) => WellFormed(r) && WriteAllowed(r, actor) && r.memoryId == id && r.supersededBy.None?
    case Correct(from, n, content, actor, _) =>
      && !actor.Agent? && from in m && from != id && m[from].namespace == n
      && NonBlank(content) && MemoryId(n, m[from].memoryType, content) == id
    case _ => false
  }

  lemma HiddenStep(m: Records, a: Action, id: string)
    requires Authority(m) && Hidden(m, id)
    ensures Hidden(Do(m, a), id) <==> !Revives(m, a, id)
  {
    if a.RememberAgent? {
      MemoryIdIsNotBlank(a.namespace, a.memoryType, a.content);
    } else if a.Correct? && a.id in m {
      MemoryIdIsNotBlank(a.namespace, m[a.id].memoryType, a.content);
    }
  }

  predicate HiddenAfter(m: Records, actions: seq<Action>, i: nat, id: string) {
    i <= |actions| && Hidden(Run(m, actions[..i]), id)
  }

  predicate RevivedBy(m: Records, actions: seq<Action>, i: nat, id: string) {
    i < |actions| && Revives(Run(m, actions[..i]), actions[i], id)
  }

  predicate HiddenThroughout(m: Records, actions: seq<Action>, id: string) {
    forall i :: 0 <= i <= |actions| ==> HiddenAfter(m, actions, i, id)
  }

  predicate NeverRevived(m: Records, actions: seq<Action>, id: string) {
    forall i :: 0 <= i < |actions| ==> !RevivedBy(m, actions, i, id)
  }

  // Over every run a hidden record stays hidden exactly as long as no step revives it.
  lemma HiddenExactly(m: Records, actions: seq<Action>, id: string)
    requires Authority(m) && Hidden(m, id)
    ensures HiddenThroughout(m, actions, id) <==> NeverRevived(m, actions, id)
  {
    var hidden, revives := (x: Records) => Hidden(x, id), (x: Records, a: Action) => Revives(x, a, id);
    forall x: Records, a: Action | Authority(x)
      ensures Authority(Do(x, a)) && (hidden(x) ==> (hidden(Do(x, a)) <==> !revives(x, a)))
    {
      DoKeepsAuthority(x, a);
      if Hidden(x, id) {
        HiddenStep(x, a, id);
      }
    }
    UnbrokenExactly(Do, Authority, hidden, revives, m, actions);
    assert forall i :: 0 <= i <= |actions| ==> HiddenAfter(m, actions, i, id) == HoldsAt(Do, hidden, m, actions, i);
    assert forall i :: 0 <= i < |actions| ==> RevivedBy(m, actions, i, id) == BrokenAt(Do, revives, m, actions, i);
  }

  // So a corrected memory, whatever it was, is recalled by nobody through any run that follows
  // exactly when no step of the run revives it.
  lemma CorrectionHoldsExactly(m: Records, id: string, n: MemoryNamespace, content: string, actor: Actor, now: int,
                               actions: seq<Action>)
    requires Authority(m) && CorrectOutcome(m, id, n, content, actor, now).result.Ok?
    ensures var after := Do(m, Correct(id, n, content, actor, now));
      HiddenThroughout(after, actions, id) <==> NeverRevived(after, actions, id)
  {
    DoKeepsAuthority(m, Correct(id, n, content, actor, now));
    HiddenExactly(Do(m, Correct(id, n, content, actor, now)), actions, id);
  }

  // Repeating the original text is such a step, right after any correction.
  lemma RepeatingRevivesTheOriginal(n: MemoryNamespace, m: Records, id: string, content: string, actor: Actor, now: int,
                                    later: int)
    requires Authority(m) && CorrectOutcome(m, id, n, content, actor, now).result.Ok?
    requires id == MemoryId(n, m[id].memoryType, m[id].content)
    ensures var corrected := Do(m, Correct(id, n, content, actor, now));
      var repeat := RememberAgent(n, m[id].memoryType, m[id].content, later);
      && Revives(corrected, repeat, id)
      && id in Visible(Do(corrected, repeat), n, false, later) && Do(corrected, repeat)[id].content == m[id].content
  {
    MemoryIdIsNotBlank(n, m[id].memoryType, m[id].content);
  }

  // ---------------------------------------------------------------- recall, expiry and deletion

  // The preferences of a namespace are shared with those that differ from it in the session alone.
  predicate AllButSession(a: MemoryNamespace, b: MemoryNamespace) {
    && a.tenant == b.tenant && a.environment == b.environment && a.workflow == b.workflow
    && a.workflowRevision == b.workflowRevision && a.user == b.user && a.agent == b.agent
  }

  // What recall returns, record by record and in this order: the records of the namespace, and with
  // sharing on the preferences of its other sessions, that nothing superseded and that have not
  // expired, oldest first.
  lemma RecallShowsExactly(s: seq<MemoryRecord>, m: Records, n: MemoryNamespace, share: bool, now: int)
    requires Lists(s, Visible(m, n, share, now))
    ensures forall r :: r in s <==>
      && r.memoryId in m && m[r.memoryId] == r && r.supersededBy == None
      && (r.expiresAt.Some? ==> now < r.expiresAt.value)
      && (r.namespace == n || (share && r.memoryType.Preference? && AllButSession(r.namespace, n)))
    ensures forall i, j :: 0 <= i < j < |s| ==>
      s[i].createdAt < s[j].createdAt || (s[i].createdAt == s[j].createdAt && TextLess(s[i].memoryId, s[j].memoryId))
  {
  }

  // What setting an expiry does: it succeeds for a person or the system on an own record and a time
  // after its creation; then the record is recalled exactly before that time unless it was
  // superseded, and nothing else changes.
  lemma ExpiryTakesEffect(m: Records, id: string, n: MemoryNamespace, at: int, actor: Actor)
    requires Authority(m)
    ensures var out := ExpireOutcome(m, id, n, at, actor);
      && (out.result.Ok? <==> !actor.Agent? && id in m && m[id].namespace == n && m[id].createdAt < at)
      && (out.result.Raise? ==> out.records == m)
      && (out.result.Ok? ==>
            && out.records.Keys == m.Keys && out.records[id] == m[id].(expiresAt := Some(at))
            && (forall other :: other in m && other != id ==> out.records[other] == m[other])
            && (forall share, instant ::
                  id in Visible(out.records, n, share, instant) <==> m[id].supersededBy == None && instant < at))
  {
  }

  // What deleting does: it succeeds for a person or the system on an own record, which is then gone
  // from the repository and from every recall, while nothing else changes.
  lemma DeletionTakesEffect(m: Records, id: string, n: MemoryNamespace, actor: Actor)
    ensures var out := DeleteOutcome(m, id, n, actor);
      && (out.result.Ok? <==> !actor.Agent? && id in m && m[id].namespace == n)
      && (out.result.Raise? ==> out.records == m)
      && (out.result.Ok? ==>
            && id !in out.records
            && (forall other :: other != id ==> (other in out.records <==> other in m))
            && (forall other :: other in m && other != id ==> out.records[other] == m[other])
            && (forall o, share, instant :: id !in Visible(out.records, o, share, instant)))
  {
  }

  // A step that writes an id not held: a text remembered, an allowed raw store, or a correction of
  // another record.
  predicate Writes(m: Records, a: Action, id: string) {
    match a
    case RememberAgent(n, t, content, _) => NonBlank(content) && MemoryId(n, t, content) == id
    case Store(r, actor) => WellFormed(r) && WriteAllowed(r, actor) && r.memoryId == id
    case Correct(from, n, content, actor, _) =>
      && !actor.Agent? && from in m && from != id && m[from].namespace == n
      && NonBlank(content) && MemoryId(n, m[from].memoryType, content) == id
    case _ => false
  }

  lemma AbsentStep(m: Records, a: Action, id: string)
    requires Authority(m) && id !in m
    ensures id !in Do(m, a) <==> !Writes(m, a, id)
  {
    if a.RememberAgent? {
      MemoryIdIsNotBlank(a.namespace, a.memoryType, a.content);
    } else if a.Correct? && a.id in m {
      MemoryIdIsNotBlank(a.namespace, m[a.id].memoryType, a.content);
    }
  }

  predicate AbsentAfter(m: Records, actions: seq<Action>, i: int, id: string) {
    0 <= i <= |actions| && id !in Run(m, actions[..i])
  }

  predicate WrittenBy(m: Records, actions: seq<Action>, i: int, id: string) {
    0 <= i < |actions| && Writes(Run(m, actions[..i]), actions[i], id)
  }

  // Through any run a deleted memory stays gone exactly as long as no step writes its id again.
  lemma DeletionHoldsExactly(m: Records, id: string, n: MemoryNamespace, actor: Actor, actions: seq<Action>)
    requires Authority(m) && !actor.Agent? && id in m && m[id].namespace == n
    ensures var after := Do(m, Action.Delete(id, n, actor));
      (forall i :: 0 <= i <= |actions| ==> AbsentAfter(after, actions, i, id))
      <==> (forall i :: 0 <= i < |actions| ==> !WrittenBy(after, actions, i, id))
  {
    var after := Do(m, Action.Delete(id, n, actor));
    DoKeepsAuthority(m, Action.Delete(id, n, actor));
    var absent, writes := (x: Records) => id !in x, (x: Records, a: Action) => Writes(x, a, id);
    forall x: Records, a: Action | Authority(x)
      ensures Authority(Do(x, a)) && (absent(x) ==> (absent(Do(x, a)) <==> !writes(x, a)))
    {
      DoKeepsAuthority(x, a);
      if id !in x {
        AbsentStep(x, a, id);
      }
    }
    UnbrokenExactly(Do, Authority, absent, writes, after, actions);
    assert forall i :: 0 <= i <= |actions| ==>
        AbsentAfter(after, actions, i, id) == HoldsAt(Do, absent, after, actions, i);
    assert forall i :: 0 <= i < |actions| ==>
        WrittenBy(after, actions, i, id) == BrokenAt(Do, writes, after, actions, i);
  }

  // ---------------------------------------------------------------- what a write leaves

  // Everything but the record under this id is as it was.
  predicate OnlyAt(m: Records, after: Records, id: string) {
    && after.Keys == m.Keys + {id}
    && forall other :: other in m && other != id ==> after[other] == m[other]
  }

  // A memory an agent has something to say in is kept as an untrusted proposal without an expiry.
  lemma RememberingTakesEffect(m: Records, n: MemoryNamespace, t: MemoryType, content: string, now: int)
    ensures var out, id := RememberAgentOutcome(m, n, t, content, now), MemoryId(n, t, content);
      && (out.result.Ok? <==> NonBlank(content))
      && (out.result.Raise? ==> out.records == m)
      && (out.result.Ok? ==>
            && OnlyAt(m, out.records, id) && Ok(out.records[id]) == out.result
            && var r := out.records[id];
               && r.memoryId == id && r.namespace == n && r.memoryType == t && r.content == content
               && r.origin == AgentDerived && r.trust == Untrusted && r.proposed && r.createdAt == now
               && r.expiresAt == None && r.citations == [] && r.supersedes == None && r.supersededBy == None)
  {
    MemoryIdIsNotBlank(n, t, content);
  }

  // Who may store what: an agent an untrusted proposal, a person what it asserts, the system what it
  // verified.
  lemma StoringTakesEffect(m: Records, r: MemoryRecord, actor: Actor)
    ensures var out := StoreOutcome(m, r, actor);
      && (out.result.Ok? <==>
            match actor
            case Agent => r.proposed && r.trust == Untrusted && r.origin in {Proposed, AgentDerived}
            case Human => !r.proposed && r.trust == Trust.UserAsserted && r.origin == Origin.UserAsserted
            case System => !r.proposed && r.trust == Verified && r.origin == SystemVerified)
      && (out.result.Raise? ==> out.records == m)
      && (out.result.Ok? ==> OnlyAt(m, out.records, r.memoryId) && out.records[r.memoryId] == r)
  {
  }

  // Accepting succeeds for a person or the system on an own proposal, which is then theirs.
  lemma AcceptanceTakesEffect(m: Records, id: string, n: MemoryNamespace, actor: Actor)
    requires Authority(m)
    ensures var out := AcceptOutcome(m, id, n, actor);
      && (out.result.Ok? <==> !actor.Agent? && id in m && m[id].namespace == n && m[id].proposed)
      && (out.result.Raise? ==> out.records == m)
      && (out.result.Ok? ==>
            && OnlyAt(m, out.records, id)
            && var (origin, trust) := if actor.Human? then (Origin.UserAsserted, Trust.UserAsserted)
                                      else (SystemVerified, Verified);
               out.records[id] == m[id].(origin := origin, trust := trust, proposed := false))
  {
  }

  // ---------------------------------------------------------------- ids and namespaces

  predicate HonestAt(r: MemoryRecord) {
    r.memoryId == MemoryId(r.namespace, r.memoryType, r.content)
  }

  // Together with Keyed: every record sits under the id its own content gives.
  predicate Honest(m: Records) {
    forall id :: id in m ==> HonestAt(m[id])
  }

  function Through(m: Records, a: Action): Records {
    if a.Store? then m else Do(m, a)
  }

  predicate AuthorityAndHonest(m: Records) {
    Authority(m) && Honest(m)
  }

  lemma PutKeepsHonest(m: Records, r: MemoryRecord)
    requires Honest(m) && HonestAt(r)
    ensures Honest(m[r.memoryId := r])
  {
  }

  lemma CorrectKeepsHonest(m: Records, id: string, n: MemoryNamespace, content: string, actor: Actor, now: int)
    requires Keyed(m) && Honest(m)
    ensures Honest(CorrectOutcome(m, id, n, content, actor, now).records)
  {
    var out := CorrectOutcome(m, id, n, content, actor, now);
    if out.result.Ok? {
      var superseded := m[id].(supersededBy := Some(out.result.value.memoryId));
      PutKeepsHonest(m, superseded);
      PutKeepsHonest(m[id := superseded], out.result.value);
    }
  }

  // Accepting and expiring replace a record by one with the same namespace, type and content.
  lemma ReviewKeepsContent(m: Records, a: Action)
    requires Keyed(m) && (a.Accept? || a.Expire?)
    ensures Do(m, a) == m || (a.id in m && exists r :: SameSubject(r, m[a.id]) && Do(m, a) == m[a.id := r])
  {
    if a.Accept? {
      var out := AcceptOutcome(m, a.id, a.namespace, a.actor);
      if out.result.Ok? {
        assert SameSubject(out.result.value, m[a.id]) && out.records == m[a.id := out.result.value];
      }
    } else {
      var out := ExpireOutcome(m, a.id, a.namespace, a.expiresAt, a.actor);
      if out.result.Ok? {
        assert SameSubject(out.result.value, m[a.id]) && out.records == m[a.id := out.result.value];
      }
    }
  }

  predicate SameSubject(r: MemoryRecord, q: MemoryRecord) {
    r.memoryId == q.memoryId && r.namespace == q.namespace && r.memoryType == q.memoryType && r.content == q.content
  }

  lemma ReviewKeepsHonest(m: Records, a: Action)
    requires Keyed(m) && Honest(m) && (a.Accept? || a.Expire?)
    ensures Honest(Do(m, a))
  {
    ReviewKeepsContent(m, a);
    if Do(m, a) != m {
      var r :| SameSubject(r, m[a.id]) && Do(m, a) == m[a.id := r];
      SameSubjectHonest(m[a.id], r);
      PutKeepsHonest(m, r);
    }
  }

  lemma SameSubjectHonest(q: MemoryRecord, r: MemoryRecord)
    requires HonestAt(q) && SameSubject(r, q)
    ensures HonestAt(r)
  {
  }

  lemma ThroughKeepsHonest(m: Records, a: Action)
    requires Authority(m) && Honest(m)
    ensures Honest(Through(m, a))
  {
    match a
    case RememberAgent(n, t, content, now) => PutKeepsHonest(m, AgentRecord(n, t, content, now));
    case Store(r, actor) =>
    case Accept(id, n, actor) => ReviewKeepsHonest(m, a);
    case Correct(id, n, content, actor, now) => CorrectKeepsHonest(m, id, n, content, actor, now);
    case Expire(id, n, at, actor) => ReviewKeepsHonest(m, a);
    case Delete(id, n, actor) =>
  }

  // Without raw store every record sits under the id of its own namespace, type and content.
  lemma ServiceRunsAreHonest(actions: seq<Action>)
    requires forall i :: 0 <= i < |actions| ==> !actions[i].Store?
    ensures var m := Run(map[], actions);
      forall id :: id in m ==> id == MemoryId(m[id].namespace, m[id].memoryType, m[id].content)
  {
    forall m: Records, a: Action | AuthorityAndHonest(m) ensures AuthorityAndHonest(Through(m, a)) {
      DoKeepsAuthority(m, a);
      ThroughKeepsHonest(m, a);
    }
    RunInvariant(Through, AuthorityAndHonest, map[], actions);
    ThroughIsDo(map[], actions);
  }

  lemma {:induction false} ThroughIsDo(m: Records, actions: seq<Action>)
    requires forall i :: 0 <= i < |actions| ==> !actions[i].Store?
    ensures RunFrom(Through, m, actions) == RunFrom(Do, m, actions)
  {
    if actions != [] {
      ThroughIsDo(m, actions[..|actions| - 1]);
    }
  }

  // The ids a service step may write or remove.
  predicate Touches(m: Records, a: Action, id: string) {
    match a
    case RememberAgent(n, t, content, _) => id == MemoryId(n, t, content)
    case Store(r, _) => id == r.memoryId
    case Accept(at, n, _) => id == at && at in m && m[at].namespace == n
    case Correct(at, n, content, _, _) =>
      at in m && m[at].namespace == n && (id == at || id == MemoryId(n, m[at].memoryType, content))
    case Expire(at, n, _, _) => id == at && at in m && m[at].namespace == n
    case Delete(at, n, _) => id == at && at in m && m[at].namespace == n
  }

  lemma CorrectTouches(m: Records, a: Action, id: string)
    requires Keyed(m) && a.Correct? && id in m && !Touches(m, a, id)
    ensures id in Do(m, a) && Do(m, a)[id] == m[id]
  {
    var out := CorrectOutcome(m, a.id, a.namespace, a.content, a.actor, a.now);
    if out.result.Ok? {
      var superseded := m[a.id].(supersededBy := Some(out.result.value.memoryId));
      assert out.records == m[a.id := superseded][out.result.value.memoryId := out.result.value];
    }
  }

  lemma OthersUntouched(m: Records, a: Action, id: string)
    requires Keyed(m) && id in m && !Touches(m, a, id)
    ensures id in Do(m, a) && Do(m, a)[id] == m[id]
  {
    if a.Correct? {
      CorrectTouches(m, a, id);
    }
  }

  // Under such ids an operation only ever touches records under the key of the namespace it names.
  lemma OtherKeysUntouched(m: Records, a: Action, id: string)
    requires Authority(m) && Honest(m) && !a.Store?
    requires id in m && m[id].namespace.Key() != a.namespace.Key()
    ensures id in Do(m, a) && Do(m, a)[id] == m[id]
  {
    var r := m[id];
    if Touches(m, a, id) {
      assert HonestAt(r);
      if a.RememberAgent? {
        MemoryIdIdentifies(r.namespace, r.memoryType, r.content, a.namespace, a.memoryType, a.content);
      } else if a.Correct? && id != a.id {
        MemoryIdIdentifies(r.namespace, r.memoryType, r.content, a.namespace, m[a.id].memoryType, a.content);
      }
      assert false;
    } else {
      OthersUntouched(m, a, id);
    }
  }

  // An operation of another namespace leaves this record of n as it was.
  predicate LeavesAlone(n: MemoryNamespace, m: Records, a: Action, id: string) {
    Authority(m) && Honest(m) && !a.Store? && Constructible(a.namespace) && a.namespace != n
    && id in m && m[id].namespace == n
    ==> id in Do(m, a) && Do(m, a)[id] == m[id]
  }

  // A namespace is safe from every operation of every other one exactly when none of its components
  // can be cut at a slash and shifted.
  lemma NamespacesAreIsolated(n: MemoryNamespace)
    requires Constructible(n)
    ensures (forall m, a, id :: LeavesAlone(n, m, a, id)) <==> !Shiftable('/', n.Components())
  {
    KeyIsSharedExactly(n);
    if Shiftable('/', n.Components()) {
      assert !IsSpace("x"[0]);
      var o := SlashBreaksIsolation(n, map[], Working, "x", 0);
      var id := MemoryId(n, Working, "x");
      assert !LeavesAlone(n, Do(map[], RememberAgent(n, Working, "x", 0)), RememberAgent(o, Working, "x", 0), id);
    } else {
      forall m: Records, a: Action, id: string ensures LeavesAlone(n, m, a, id) {
        if Authority(m) && Honest(m) && !a.Store? && Constructible(a.namespace) && a.namespace != n
           && id in m && m[id].namespace == n {
          OtherKeysUntouched(m, a, id);
        }
      }
    }
  }

  // Otherwise there is another namespace whose agent, saying the same thing, replaces the record.
  lemma SlashBreaksIsolation(n: MemoryNamespace, m: Records, t: MemoryType, content: string, now: int)
    returns (o: MemoryNamespace)
    requires Constructible(n) && Shiftable('/', n.Components()) && Authority(m) && Honest(m) && NonBlank(content)
    ensures Constructible(o) && o != n
    ensures var id := MemoryId(n, t, content);
      var mine := Do(m, RememberAgent(n, t, content, now));
      var theirs := Do(mine, RememberAgent(o, t, content, now));
      && Authority(mine) && Honest(mine) && id in mine && mine[id].namespace == n
      && id in Visible(mine, n, false, now)
      && id in theirs && theirs[id].namespace == o && id !in Visible(theirs, n, false, now)
  {
    o := SlashMergesNamespaces(n);
    assert MemoryId(o, t, content) == MemoryId(n, t, content);
    MemoryIdIsNotBlank(n, t, content);
    var mine := RememberAgent(n, t, content, now);
    DoKeepsAuthority(m, mine);
    ThroughKeepsHonest(m, mine);
  }
}
