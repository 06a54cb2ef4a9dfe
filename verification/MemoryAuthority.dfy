/** Governed memory: who may write which record, correction, expiry, deletion and recall. */
module MemoryAuthority {
  import opened Prelude
  import opened Domain
  import opened StableIds

  datatype Origin = Proposed | AgentDerived | UserAsserted | SystemVerified

  datatype Actor = Agent | Human | System

  datatype Citation = Citation(uri: string, recordId: string, version: string)

  datatype MemoryRecord = MemoryRecord(
    memoryId: string, namespace: MemoryNamespace, memoryType: MemoryType, content: string,
    origin: Origin, trust: Trust, proposed: bool, createdAt: int, expiresAt: Option<int>,
    citations: seq<Citation>, supersedes: Option<string>, supersededBy: Option<string>)

  type Records = map<string, MemoryRecord>

  // What MemoryRecord's constructor accepts, also when replace() runs it again.
  predicate WellFormed(r: MemoryRecord) {
    NonBlank(r.memoryId) && NonBlank(r.content) && (r.expiresAt.Some? ==> r.expiresAt.value > r.createdAt)
  }

  function Constructed(r: MemoryRecord): Result<MemoryRecord> {
    if WellFormed(r) then Ok(r) else Raise(ValueError)
  }

  // ---------------------------------------------------------------- who may write what

  predicate AgentWriteAllowed(r: MemoryRecord) {
    r.origin in {Proposed, AgentDerived} && r.trust == Untrusted && r.proposed
  }

  predicate HumanWriteAllowed(r: MemoryRecord) {
    r.origin == Origin.UserAsserted && r.trust == Trust.UserAsserted && !r.proposed
  }

  predicate SystemWriteAllowed(r: MemoryRecord) {
    r.origin == SystemVerified && r.trust == Verified && !r.proposed
  }

  predicate WriteAllowed(r: MemoryRecord, actor: Actor) {
    match actor
    case Agent => AgentWriteAllowed(r)
    case Human => HumanWriteAllowed(r)
    case System => SystemWriteAllowed(r)
  }

  function AuthorityProfile(actor: Actor): Result<(Origin, Trust)> {
    match actor
    case Agent => Raise(PermissionError)
    case Human => Ok((Origin.UserAsserted, Trust.UserAsserted))
    case System => Ok((SystemVerified, Verified))
  }

  function Owned(m: Records, id: string, namespace: MemoryNamespace): Result<MemoryRecord> {
    if id !in m then Raise(KeyError)
    else if m[id].namespace != namespace then Raise(PermissionError)
    else Ok(m[id])
  }

  // ---------------------------------------------------------------- the operations

  datatype Outcome<+T> = Outcome(records: Records, result: Result<T>)

  function StoreOutcome(m: Records, r: MemoryRecord, actor: Actor): Outcome<MemoryRecord> {
    if WriteAllowed(r, actor) then Outcome(m[r.memoryId := r], Ok(r)) else Outcome(m, Raise(PermissionError))
  }

  function AgentRecord(namespace: MemoryNamespace, memoryType: MemoryType, content: string, now: int): MemoryRecord {
    MemoryRecord(MemoryId(namespace, memoryType, content), namespace, memoryType, content,
                 AgentDerived, Untrusted, true, now, None, [], None, None)
  }

  function RememberAgentOutcome(m: Records, namespace: MemoryNamespace, memoryType: MemoryType, content: string,
                                now: int): Outcome<MemoryRecord> {
    match Constructed(AgentRecord(namespace, memoryType, content, now))
    case Raise(error) => Outcome(m, Raise(error))
    case Ok(record) => StoreOutcome(m, record, Agent)
  }

  function AcceptOutcome(m: Records, id: string, namespace: MemoryNamespace, actor: Actor): Outcome<MemoryRecord> {
    match AuthorityProfile(actor)
    case Raise(error) => Outcome(m, Raise(error))
    case Ok((origin, trust)) =>
      match Owned(m, id, namespace)
      case Raise(error) => Outcome(m, Raise(error))
      case Ok(record) =>
        if !record.proposed then Outcome(m, Raise(ValueError))
        else StoreOutcome(m, record.(origin := origin, trust := trust, proposed := false), actor)
  }

  function Replacement(original: MemoryRecord, namespace: MemoryNamespace, content: string, profile: (Origin, Trust),
                       now: int): MemoryRecord {
    MemoryRecord(MemoryId(namespace, original.memoryType, content), namespace, original.memoryType, content,
                 profile.0, profile.1, false, now, None, original.citations, Some(original.memoryId), None)
  }

  function CorrectOutcome(m: Records, id: string, namespace: MemoryNamespace, content: string, actor: Actor, now: int)
    : Outcome<MemoryRecord>
  {
    match AuthorityProfile(actor)
    case Raise(error) => Outcome(m, Raise(error))
    case Ok(profile) =>
      match Owned(m, id, namespace)
      case Raise(error) => Outcome(m, Raise(error))
      case Ok(original) =>
        match Constructed(Replacement(original, namespace, content, profile, now))
        case Raise(error) => Outcome(m, Raise(error))
        case Ok(replacement) =>
          if replacement.memoryId == original.memoryId then Outcome(m, Raise(ValueError))
          else
            var superseded := original.(supersededBy := Some(replacement.memoryId));
            Outcome(m[original.memoryId := superseded][replacement.memoryId := replacement], Ok(replacement))
  }

  function ExpireOutcome(m: Records, id: string, namespace: MemoryNamespace, expiresAt: int, actor: Actor)
    : Outcome<MemoryRecord>
  {
    if actor.Agent? then Outcome(m, Raise(PermissionError))
    else
      match Owned(m, id, namespace)
      case Raise(error) => Outcome(m, Raise(error))
      case Ok(record) =>
        match Constructed(record.(expiresAt := Some(expiresAt)))
        case Raise(error) => Outcome(m, Raise(error))
        case Ok(expiring) => Outcome(m[expiring.memoryId := expiring], Ok(expiring))
  }

  function DeleteOutcome(m: Records, id: string, namespace: MemoryNamespace, actor: Actor): Outcome<()> {
    if actor.Agent? then Outcome(m, Raise(PermissionError))
    else
      match Owned(m, id, namespace)
      case Raise(error) => Outcome(m, Raise(error))
      case Ok(_) => Outcome(m - {id}, Ok(()))
  }

  // ---------------------------------------------------------------- recall

  predicate IsActive(r: MemoryRecord, now: int) {
    (r.expiresAt.None? || r.expiresAt.value > now) && r.supersededBy.None?
  }

  // Everything but the session agrees.
  predicate SamePreferenceScope(a: MemoryNamespace, b: MemoryNamespace) {
    a.(session := b.session) == b
  }

  function InNamespace(m: Records, namespace: MemoryNamespace): Records {
    map id | id in m && m[id].namespace == namespace :: m[id]
  }

  function SharedPreferences(m: Records, namespace: MemoryNamespace): Records {
    map id | id in m && m[id].memoryType.Preference? && SamePreferenceScope(m[id].namespace, namespace) :: m[id]
  }

  function Visible(m: Records, namespace: MemoryNamespace, share: bool, now: int): Records {
    map id | id in m && IsActive(m[id], now)
             && (m[id].namespace == namespace
                 || (share && m[id].memoryType.Preference? && SamePreferenceScope(m[id].namespace, namespace)))
      :: m[id]
  }

  datatype Stamp = Stamp(createdAt: int, memoryId: string)

  function StampOf(r: MemoryRecord): Stamp {
    Stamp(r.createdAt, r.memoryId)
  }

  predicate Older(a: Stamp, b: Stamp) {
    a.createdAt < b.createdAt || (a.createdAt == b.createdAt && TextLess(a.memoryId, b.memoryId))
  }

  lemma OlderIsStrictTotal()
    ensures StrictTotal(Older)
  {
    forall x: Stamp ensures !Older(x, x) {
      TextLessTotal(x.memoryId, x.memoryId);
    }
    forall x: Stamp, y: Stamp ensures Older(x, y) || Older(y, x) || x == y {
      TextLessTotal(x.memoryId, y.memoryId);
    }
    forall x: Stamp, y: Stamp, z: Stamp | Older(x, y) && Older(y, z) ensures Older(x, z) {
      if TextLess(x.memoryId, y.memoryId) && TextLess(y.memoryId, z.memoryId) {
        TextLessTransitive(x.memoryId, y.memoryId, z.memoryId);
      }
    }
  }

  predicate Keyed(m: Records) {
    forall id :: id in m ==> m[id].memoryId == id
  }

  // s holds exactly the records of m, oldest first, ties by id.
  ghost predicate Lists(s: seq<MemoryRecord>, m: Records) {
    && (forall i, j :: 0 <= i < j < |s| ==> Older(StampOf(s[i]), StampOf(s[j])))
    && (forall r :: r in s <==> r.memoryId in m && m[r.memoryId] == r)
  }

  // The stamps of the records of m outside some ids.
  ghost predicate StampsOf(stamps: seq<Stamp>, m: Records, left: set<string>) {
    forall x :: x in stamps <==> x.memoryId in m && x.memoryId !in left && StampOf(m[x.memoryId]) == x
  }

  // s is m read off along the stamps.
  ghost predicate ReadAlong(s: seq<MemoryRecord>, order: seq<Stamp>, m: Records) {
    |s| == |order| && forall i :: 0 <= i < |s| ==> ReadAt(s, order, m, i)
  }

  ghost predicate ReadAt(s: seq<MemoryRecord>, order: seq<Stamp>, m: Records, i: nat) {
    i < |s| && i < |order| && order[i].memoryId in m && s[i] == m[order[i].memoryId] && StampOf(s[i]) == order[i]
  }

  lemma ReadAlongLists(s: seq<MemoryRecord>, order: seq<Stamp>, m: Records)
    requires Keyed(m) && Ascending(Older, order) && StampsOf(order, m, {}) && ReadAlong(s, order, m)
    ensures Lists(s, m)
  {
    forall i, j | 0 <= i < j < |s| ensures Older(StampOf(s[i]), StampOf(s[j])) {
      assert ReadAt(s, order, m, i) && ReadAt(s, order, m, j);
    }
    forall r ensures r in s <==> r.memoryId in m && m[r.memoryId] == r {
      if r in s {
        var i :| 0 <= i < |s| && s[i] == r;
        assert ReadAt(s, order, m, i);
      }
      if r.memoryId in m && m[r.memoryId] == r {
        assert StampOf(r) in order;
        var i :| 0 <= i < |order| && order[i] == StampOf(r);
        assert ReadAt(s, order, m, i);
      }
    }
  }

  method CollectStamps(m: Records) returns (stamps: seq<Stamp>)
    requires Keyed(m)
    ensures Distinct(stamps) && StampsOf(stamps, m, {})
  {
    stamps := [];
    var left := m.Keys;
    while left != {}
      invariant left <= m.Keys && Distinct(stamps) && StampsOf(stamps, m, left)
      decreases |left|
    {
      var id :| id in left;
      stamps := stamps + [StampOf(m[id])];
      left := left - {id};
    }
  }

  // sorted(records, key=(created_at, memory_id))
  method SortRecords(m: Records) returns (s: seq<MemoryRecord>)
    requires Keyed(m)
    ensures Lists(s, m)
  {
    var stamps := CollectStamps(m);
    var order := Sorted(Older, stamps);
    OlderIsStrictTotal();
    SortedAscending(Older, stamps);
    SortedMembers(Older, stamps);
    s := [];
    for i := 0 to |order|
      invariant |s| == i
      invariant forall j :: 0 <= j < i ==> ReadAt(s, order, m, j)
    {
      assert order[i] in order;
      ghost var before := s;
      s := s + [m[order[i].memoryId]];
      forall j | 0 <= j <= i ensures ReadAt(s, order, m, j) {
        assert j < i ==> ReadAt(before, order, m, j);
      }
    }
    ReadAlongLists(s, order, m);
  }

  ghost predicate From(all: seq<MemoryRecord>, m: Records) {
    forall r :: r in all ==> r.memoryId in m && m[r.memoryId] == r
  }

  function Shown(m: Records, all: seq<MemoryRecord>, now: int): Records {
    map id | id in m && m[id] in all && IsActive(m[id], now) :: m[id]
  }

  method VisibleRecords(all: seq<MemoryRecord>, now: int, ghost m: Records) returns (s: seq<MemoryRecord>)
    requires Keyed(m) && From(all, m)
    ensures Lists(s, Shown(m, all, now))
  {
    var active: Records := map[];
    for i := 0 to |all|
      invariant active == Shown(m, all[..i], now)
    {
      assert all[..i + 1] == all[..i] + [all[i]] && all[i] in all;
      if IsActive(all[i], now) {
        active := active[all[i].memoryId := all[i]];
      }
    }
    assert all[..|all|] == all;
    s := SortRecords(active);
  }

  lemma RecalledAreVisible(m: Records, exact: seq<MemoryRecord>, shared: seq<MemoryRecord>,
                           namespace: MemoryNamespace, share: bool, now: int)
    requires Keyed(m) && Lists(exact, InNamespace(m, namespace))
    requires if share then Lists(shared, SharedPreferences(m, namespace)) else shared == []
    ensures From(exact + shared, m)
    ensures Shown(m, exact + shared, now) == Visible(m, namespace, share, now)
  {
    forall id | id in m
      ensures m[id] in exact + shared <==>
        || m[id].namespace == namespace
        || (share && m[id].memoryType.Preference? && SamePreferenceScope(m[id].namespace, namespace))
    {
      assert m[id] in exact + shared <==> m[id] in exact || m[id] in shared;
    }
  }

  function Stamps(s: seq<MemoryRecord>): (stamps: seq<Stamp>)
    ensures |stamps| == |s| && forall i :: 0 <= i < |s| ==> stamps[i] == StampOf(s[i])
  {
    seq(|s|, i requires 0 <= i < |s| => StampOf(s[i]))
  }

  lemma ListedStamps(s: seq<MemoryRecord>, m: Records)
    requires Lists(s, m)
    ensures Ascending(Older, Stamps(s))
    ensures forall x :: x in Stamps(s) <==> x.memoryId in m && m[x.memoryId].memoryId == x.memoryId
                                            && StampOf(m[x.memoryId]) == x
  {
    forall x ensures x in Stamps(s) <==> x.memoryId in m && m[x.memoryId].memoryId == x.memoryId
                                         && StampOf(m[x.memoryId]) == x {
      if x in Stamps(s) {
        var i :| 0 <= i < |s| && Stamps(s)[i] == x;
        assert s[i] in s;
      }
      if x.memoryId in m && m[x.memoryId].memoryId == x.memoryId && StampOf(m[x.memoryId]) == x {
        assert m[x.memoryId] in s;
        var i :| 0 <= i < |s| && s[i] == m[x.memoryId];
        assert Stamps(s)[i] == x;
      }
    }
  }

  // A listing is determined by what it lists.
  lemma ListingIsUnique(s: seq<MemoryRecord>, t: seq<MemoryRecord>, m: Records)
    requires Lists(s, m) && Lists(t, m)
    ensures s == t
  {
    ListedStamps(s, m);
    ListedStamps(t, m);
    OlderIsStrictTotal();
    AscendingUnique(Older, Stamps(s), Stamps(t));
    forall i | 0 <= i < |s| ensures s[i] == t[i] {
      assert Stamps(s)[i] == Stamps(t)[i] && s[i] in s && t[i] in t;
    }
  }

  // ---------------------------------------------------------------- the objects

  class InMemoryMemoryRepository {
    var records: Records

    predicate Valid()
      reads this
    {
      Keyed(records) && forall id :: id in records ==> WellFormed(records[id])
    }

    constructor ()
      ensures Valid() && records == map[]
    {
      records := map[];
    }

    method Put(record: MemoryRecord)
      requires Valid() && WellFormed(record)
      modifies this
      ensures Valid() && records == old(records)[record.memoryId := record]
    {
      records := records[record.memoryId := record];
    }

    method Fetch(id: string) returns (r: Option<MemoryRecord>)
      ensures r == if id in records then Some(records[id]) else None
    {
      r := if id in records then Some(records[id]) else None;
    }

    method List(namespace: MemoryNamespace) returns (s: seq<MemoryRecord>)
      requires Valid()
      ensures Lists(s, InNamespace(records, namespace))
    {
      s := SortRecords(InNamespace(records, namespace));
    }

    method ListPreferences(namespace: MemoryNamespace) returns (s: seq<MemoryRecord>)
      requires Valid()
      ensures Lists(s, SharedPreferences(records, namespace))
    {
      s := SortRecords(SharedPreferences(records, namespace));
    }

    method Supersede(original: MemoryRecord, replacement: MemoryRecord)
      requires Valid() && WellFormed(original) && WellFormed(replacement)
      modifies this
      ensures Valid()
      ensures records == old(records)[original.memoryId := original][replacement.memoryId := replacement]
    {
      records := records[original.memoryId := original];
      records := records[replacement.memoryId := replacement];
    }

    method Delete(id: string)
      requires Valid()
      modifies this
      ensures Valid() && records == old(records) - {id}
    {
      records := records - {id};
    }
  }

  class MemoryService {
    const repository: InMemoryMemoryRepository
    const sharePreferences: bool

    constructor (repository: InMemoryMemoryRepository, sharePreferences: bool)
      ensures this.repository == repository && this.sharePreferences == sharePreferences
    {
      this.repository := repository;
      this.sharePreferences := sharePreferences;
    }

    method RememberAgent(namespace: MemoryNamespace, memoryType: MemoryType, content: string, now: int)
      returns (r: Result<MemoryRecord>)
      requires repository.Valid()
      modifies repository
      ensures repository.Valid()
      ensures Outcome(repository.records, r)
           == RememberAgentOutcome(old(repository.records), namespace, memoryType, content, now)
    {
      var built := Constructed(AgentRecord(namespace, memoryType, content, now));
      if built.Raise? {
        return built;
      }
      r := Store(built.value, Agent);
    }

    method Store(record: MemoryRecord, actor: Actor) returns (r: Result<MemoryRecord>)
      requires repository.Valid() && WellFormed(record)
      modifies repository
      ensures repository.Valid()
      ensures Outcome(repository.records, r) == StoreOutcome(old(repository.records), record, actor)
    {
      if !WriteAllowed(record, actor) {
        return Raise(PermissionError);
      }
      repository.Put(record);
      return Ok(record);
    }

    method Recall(namespace: MemoryNamespace, now: int) returns (s: seq<MemoryRecord>)
      requires repository.Valid()
      ensures Lists(s, Visible(repository.records, namespace, sharePreferences, now))
    {
      var exact := repository.List(namespace);
      var shared: seq<MemoryRecord> := [];
      if sharePreferences {
        shared := repository.ListPreferences(namespace);
      }
      RecalledAreVisible(repository.records, exact, shared, namespace, sharePreferences, now);
      s := VisibleRecords(exact + shared, now, repository.records);
    }

    method Accept(id: string, namespace: MemoryNamespace, actor: Actor) returns (r: Result<MemoryRecord>)
      requires repository.Valid()
      modifies repository
      ensures repository.Valid()
      ensures Outcome(repository.records, r) == AcceptOutcome(old(repository.records), id, namespace, actor)
    {
      var profile := AuthorityProfile(actor);
      if profile.Raise? {
        return Raise(profile.error);
      }
      var owned := GetOwned(id, namespace);
      if owned.Raise? {
        return owned;
      }
      if !owned.value.proposed {
        return Raise(ValueError);
      }
      r := Store(owned.value.(origin := profile.value.0, trust := profile.value.1, proposed := false), actor);
    }

    method Correct(id: string, namespace: MemoryNamespace, content: string, actor: Actor, now: int)
      returns (r: Result<MemoryRecord>)
      requires repository.Valid()
      modifies repository
      ensures repository.Valid()
      ensures Outcome(repository.records, r)
           == CorrectOutcome(old(repository.records), id, namespace, content, actor, now)
    {
      var profile := AuthorityProfile(actor);
      if profile.Raise? {
        return Raise(profile.error);
      }
      var owned := GetOwned(id, namespace);
      if owned.Raise? {
        return owned;
      }
      var original := owned.value;
      var built := Constructed(Replacement(original, namespace, content, profile.value, now));
      if built.Raise? {
        return built;
      }
      if built.value.memoryId == original.memoryId {
        return Raise(ValueError);
      }
      repository.Supersede(original.(supersededBy := Some(built.value.memoryId)), built.value);
      return built;
    }

    method Expire(id: string, namespace: MemoryNamespace, expiresAt: int, actor: Actor)
      returns (r: Result<MemoryRecord>)
      requires repository.Valid()
      modifies repository
      ensures repository.Valid()
      ensures Outcome(repository.records, r) == ExpireOutcome(old(repository.records), id, namespace, expiresAt, actor)
    {
      if actor.Agent? {
        return Raise(PermissionError);
      }
      var owned := GetOwned(id, namespace);
      if owned.Raise? {
        return owned;
      }
      var built := Constructed(owned.value.(expiresAt := Some(expiresAt)));
      if built.Ok? {
        repository.Put(built.value);
      }
      return built;
    }

    method Delete(id: string, namespace: MemoryNamespace, actor: Actor) returns (r: Result<()>)
      requires repository.Valid()
      modifies repository
      ensures repository.Valid()
      ensures Outcome(repository.records, r) == DeleteOutcome(old(repository.records), id, namespace, actor)
    {
      if actor.Agent? {
        return Raise(PermissionError);
      }
      var owned := GetOwned(id, namespace);
      if owned.Raise? {
        return Raise(owned.error);
      }
      repository.Delete(id);
      return Ok(());
    }

    method GetOwned(id: string, namespace: MemoryNamespace) returns (r: Result<MemoryRecord>)
      ensures r == Owned(repository.records, id, namespace)
    {
      var found := repository.Fetch(id);
      if found.None? {
        return Raise(KeyError);
      }
      if found.value.namespace != namespace {
        return Raise(PermissionError);
      }
      return Ok(found.value);
    }
  }
}
