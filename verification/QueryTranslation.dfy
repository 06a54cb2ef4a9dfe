/** Search requests, the filter clauses sent to the index, and the check made on what comes back. */
module QueryTranslation {
  import opened Prelude
  import opened Domain

  datatype SearchRequest = SearchRequest(
    tenantId: string, corpora: seq<string>, namespaces: seq<string>, classifications: seq<string>,
    limit: int, candidateLimit: int, metadataFilters: map<string, seq<string>>, purpose: string,
    memoryTypes: seq<string>)

  datatype MemoryEntry = MemoryEntry(
    tenantId: string, deleted: bool, namespace: string, memoryType: string, status: Option<string>,
    expiresAt: Option<int>)

  // A stored row: an institutional chunk or a memory.
  datatype Row = Chunk(document: ContextDocument) | Memory(entry: MemoryEntry)

  predicate IsMemoryRequest(r: SearchRequest) {
    r.corpora == ["memory"]
  }

  // ---------------------------------------------------------------- what the index evaluates

  datatype Field = TenantId | ValidityDeleted | Deleted | DomainField | Classification | AllowedPurposes | Keywords
                 | Region | RecordId | EntityType | SourceSystem | NamespaceField | MemoryTypeField | ExpiresAt | Status

  datatype Clause = Term(field: Field, value: string)
                  | Terms(field: Field, values: seq<string>)
                  | IsFlag(field: Field, flag: bool)
                  | Missing(field: Field)
                  | AfterNow(field: Field)
                  | Not(clause: Clause)
                  | Either(left: Clause, right: Clause)

  function Keep(v: Option<string>): seq<string> {
    if v.Some? then [v.value] else []
  }

  // The keywords indexed under a field.
  function Values(row: Row, field: Field): seq<string> {
    match row
    case Chunk(d) =>
      (match field
       case TenantId => [d.tenantId]
       case DomainField => [d.domain]
       case Classification => [d.governance.classification]
       case AllowedPurposes => d.governance.allowedPurposes
       case Keywords => d.keywords
       case Region => [d.governance.region]
       case RecordId => [d.source.recordId]
       case EntityType => [d.entityType]
       case SourceSystem => [d.source.system]
       case _ => [])
    case Memory(m) =>
      (match field
       case TenantId => [m.tenantId]
       case NamespaceField => [m.namespace]
       case MemoryTypeField => [m.memoryType]
       case Status => Keep(m.status)
       case _ => [])
  }

  function Flag(row: Row, field: Field): Option<bool> {
    match row
    case Chunk(d) => if field.ValidityDeleted? then Some(d.validity.isDeleted) else None
    case Memory(m) => if field.Deleted? then Some(m.deleted) else None
  }

  function Instant(row: Row, field: Field): Option<int> {
    if row.Memory? && field.ExpiresAt? then row.entry.expiresAt else None
  }

  predicate Intersects(a: seq<string>, b: seq<string>) {
    exists v :: v in a && v in b
  }

  predicate Holds(clause: Clause, row: Row, now: int) {
    match clause
    case Term(field, value) => value in Values(row, field)
    case Terms(field, values) => Intersects(Values(row, field), values)
    case IsFlag(field, flag) => Flag(row, field) == Some(flag)
    case Missing(field) => Values(row, field) == [] && Flag(row, field).None? && Instant(row, field).None?
    case AfterNow(field) => Instant(row, field).Some? && Instant(row, field).value > now
    case Not(inner) => !Holds(inner, row, now)
    case Either(left, right) => Holds(left, row, now) || Holds(right, row, now)
  }

  predicate Matches(clauses: seq<Clause>, row: Row, now: int) {
    forall c :: c in clauses ==> Holds(c, row, now)
  }

  // ---------------------------------------------------------------- the clauses sent

  const SUPPORTED: seq<string> := ["brand", "entity_type", "market", "record_id", "source"]

  // The values a key asks for; none means it is not asked.
  function Filter(filters: map<string, seq<string>>, key: string): seq<string> {
    if key in filters then filters[key] else []
  }

  // The index field a metadata key is sent to.
  function QueryField(key: string): Option<Field> {
    if key == "brand" then Some(Keywords)
    else if key == "market" then Some(Region)
    else if key == "record_id" then Some(RecordId)
    else if key == "entity_type" then Some(EntityType)
    else if key == "source" then Some(SourceSystem)
    else None
  }

  function TermsIf(field: Field, values: seq<string>): seq<Clause> {
    if values == [] then [] else [Terms(field, values)]
  }

  // The clauses of the first n supported keys, which SUPPORTED lists in sorted order.
  function MetadataClauses(filters: map<string, seq<string>>, n: nat): seq<Clause>
    requires n <= |SUPPORTED|
  {
    if n == 0 then []
    else
      var key := SUPPORTED[n - 1];
      MetadataClauses(filters, n - 1)
      + if key in filters && QueryField(key).Some? then TermsIf(QueryField(key).value, filters[key]) else []
  }

  function InstitutionalFilters(r: SearchRequest): seq<Clause> {
    [Term(TenantId, r.tenantId), IsFlag(ValidityDeleted, false)]
    + TermsIf(DomainField, r.corpora)
    + TermsIf(Classification, r.classifications)
    + (if r.purpose == "" then [] else [Term(AllowedPurposes, r.purpose)])
    + MetadataClauses(r.metadataFilters, |SUPPORTED|)
  }

  function MemoryFilters(r: SearchRequest): seq<Clause> {
    [Term(TenantId, r.tenantId), IsFlag(Deleted, false)]
    + TermsIf(NamespaceField, r.namespaces)
    + TermsIf(MemoryTypeField, r.memoryTypes)
    + [Either(Missing(ExpiresAt), AfterNow(ExpiresAt)), Not(Terms(Status, ["expired", "superseded"]))]
  }

  // ---------------------------------------------------------------- the check on the way back

  // A metadata value before str() is taken of it.
  datatype Meta = Many(values: seq<string>) | One(value: Option<string>)

  // What the row itself holds under a key, read off the document; a memory has none of these.
  function MetadataValue(row: Row, key: string): Meta {
    match row
    case Chunk(d) =>
      if key == "brand" then Many(d.keywords)
      else if key == "market" then One(Some(d.governance.region))
      else if key == "record_id" then One(Some(d.source.recordId))
      else if key == "entity_type" then One(Some(d.entityType))
      else if key == "source" then One(Some(d.source.system))
      else One(None)
    case Memory(_) => if key == "brand" then Many([]) else One(None)
  }

  function Str(v: Option<string>): string {
    if v.Some? then v.value else "None"
  }

  predicate MetadataMatch(actual: Meta, requested: seq<string>) {
    match actual
    case Many(values) => Intersects(values, requested)
    case One(value) => Str(value) in requested
  }

  predicate MetadataMatches(row: Row, filters: map<string, seq<string>>) {
    forall key :: key in filters ==> MetadataMatch(MetadataValue(row, key), filters[key])
  }

  predicate OneOf(values: seq<string>, allowed: seq<string>) {
    values != [] && values[0] in allowed
  }

  predicate InstitutionalPermitted(row: Row, r: SearchRequest) {
    && (r.corpora == [] || OneOf(Values(row, DomainField), r.corpora))
    && (r.classifications == [] || OneOf(Values(row, Classification), r.classifications))
    && (r.purpose == "" || r.purpose in Values(row, AllowedPurposes))
    && MetadataMatches(row, r.metadataFilters)
  }

  predicate MemoryPermitted(row: Row, r: SearchRequest, now: int) {
    && row.Memory?
    && (r.namespaces == [] || row.entry.namespace in r.namespaces)
    && (r.memoryTypes == [] || row.entry.memoryType in r.memoryTypes)
    && (row.entry.status.None? || row.entry.status.value !in ["expired", "superseded"])
    && (row.entry.expiresAt.None? || row.entry.expiresAt.value > now)
  }

  predicate IsLive(row: Row) {
    match row
    case Chunk(d) => !d.validity.isDeleted
    case Memory(m) => !m.deleted
  }

  predicate IsPermitted(row: Row, r: SearchRequest, now: int) {
    && Values(row, TenantId) == [r.tenantId]
    && IsLive(row)
    && if IsMemoryRequest(r) then MemoryPermitted(row, r, now) else InstitutionalPermitted(row, r)
  }

  function PermittedOf(rows: seq<Row>, r: SearchRequest, now: int): seq<Row> {
    if rows == [] then []
    else PermittedOf(rows[..|rows| - 1], r, now)
         + if IsPermitted(rows[|rows| - 1], r, now) then [rows[|rows| - 1]] else []
  }

  method Hits(rows: seq<Row>, r: SearchRequest, now: int) returns (results: seq<Row>)
    ensures results == PermittedOf(rows, r, now)
    ensures forall row :: row in results <==> row in rows && IsPermitted(row, r, now)
  {
    results := [];
    for i := 0 to |rows|
      invariant results == PermittedOf(rows[..i], r, now)
      invariant forall row :: row in results <==> row in rows[..i] && IsPermitted(row, r, now)
    {
      assert rows[..i + 1] == rows[..i] + [rows[i]] && rows[..i + 1][..i] == rows[..i];
      if !IsPermitted(rows[i], r, now) {
        assert results + [] == results;
        continue;
      }
      results := results + [rows[i]];
    }
    assert rows[..|rows|] == rows;
  }

  // ---------------------------------------------------------------- institutional translation

  lemma MatchesConcat(a: seq<Clause>, b: seq<Clause>, row: Row, now: int)
    ensures Matches(a + b, row, now) <==> Matches(a, row, now) && Matches(b, row, now)
  {
    assert forall c :: c in a + b <==> c in a || c in b;
  }

  predicate KeyMatches(row: Row, filters: map<string, seq<string>>, key: string) {
    key in filters && filters[key] != [] ==> MetadataMatch(MetadataValue(row, key), filters[key])
  }

  lemma SingleIntersects(v: string, values: seq<string>)
    ensures Intersects([v], values) <==> v in values
  {
    if v in values {
      assert v in [v];
    }
  }

  lemma OptionalTermsMeaning(row: Row, field: Field, v: string, values: seq<string>, now: int)
    requires Values(row, field) == [v]
    ensures Matches(TermsIf(field, values), row, now) <==> values == [] || v in values
  {
    if values != [] {
      assert TermsIf(field, values) == [Terms(field, values)];
      assert Matches([Terms(field, values)], row, now) <==> Holds(Terms(field, values), row, now);
      SingleIntersects(v, values);
    }
  }

  lemma TwoClauses(a: Clause, b: Clause, row: Row, now: int)
    ensures Matches([a, b], row, now) <==> Holds(a, row, now) && Holds(b, row, now)
  {
    assert a in [a, b] && b in [a, b];
  }

  lemma MetadataClauseMeaning(row: Row, filters: map<string, seq<string>>, key: string, now: int)
    requires row.Chunk? && QueryField(key).Some? && key in filters
    ensures Matches(TermsIf(QueryField(key).value, filters[key]), row, now) <==> KeyMatches(row, filters, key)
  {
    var field := QueryField(key).value;
    if filters[key] != [] {
      assert TermsIf(field, filters[key]) == [Terms(field, filters[key])];
      assert Matches([Terms(field, filters[key])], row, now) <==> Holds(Terms(field, filters[key]), row, now);
      MapsAgree(row, key);
      if !field.Keywords? {
        SingleIntersects(Values(row, field)[0], filters[key]);
      }
    }
  }

  // The query and the check name the same part of a chunk by the same key.
  lemma MapsAgree(row: Row, key: string)
    requires row.Chunk? && QueryField(key).Some?
    ensures var values := Values(row, QueryField(key).value);
      match MetadataValue(row, key)
      case Many(all) => values == all && QueryField(key).value.Keywords?
      case One(value) => value.Some? && values == [value.value] && !QueryField(key).value.Keywords?
  {
  }

  lemma {:induction false} MetadataClausesMeaning(row: Row, filters: map<string, seq<string>>, n: nat, now: int)
    requires row.Chunk? && n <= |SUPPORTED|
    ensures Matches(MetadataClauses(filters, n), row, now)
       <==> forall i :: 0 <= i < n ==> KeyMatches(row, filters, SUPPORTED[i])
  {
    if n > 0 {
      MetadataClausesMeaning(row, filters, n - 1, now);
      var key := SUPPORTED[n - 1];
      var last := if key in filters && QueryField(key).Some? then TermsIf(QueryField(key).value, filters[key]) else [];
      MatchesConcat(MetadataClauses(filters, n - 1), last, row, now);
      SupportedAreMapped(n - 1);
      if key in filters {
        MetadataClauseMeaning(row, filters, key, now);
      }
    }
  }

  lemma SupportedAreMapped(i: nat)
    requires i < |SUPPORTED|
    ensures QueryField(SUPPORTED[i]).Some?
  {
  }

  lemma MappedAreSupported(key: string)
    ensures QueryField(key).Some? <==> key in SUPPORTED
  {
    assert SUPPORTED[0] == "brand" && SUPPORTED[1] == "entity_type" && SUPPORTED[2] == "market"
        && SUPPORTED[3] == "record_id" && SUPPORTED[4] == "source";
  }

  predicate SupportedMatch(row: Row, filters: map<string, seq<string>>) {
    forall key :: key in filters && key in SUPPORTED && filters[key] != [] ==>
      MetadataMatch(MetadataValue(row, key), filters[key])
  }

  // What the clauses say of a chunk, in the vocabulary of the check.
  lemma ClausesMeaning(row: Row, r: SearchRequest, now: int)
    requires row.Chunk?
    ensures Matches(InstitutionalFilters(r), row, now) <==>
      && Values(row, TenantId) == [r.tenantId] && IsLive(row)
      && (r.corpora == [] || OneOf(Values(row, DomainField), r.corpora))
      && (r.classifications == [] || OneOf(Values(row, Classification), r.classifications))
      && (r.purpose == "" || r.purpose in Values(row, AllowedPurposes))
      && SupportedMatch(row, r.metadataFilters)
  {
    var head := [Term(TenantId, r.tenantId), IsFlag(ValidityDeleted, false)];
    var a, b := TermsIf(DomainField, r.corpora), TermsIf(Classification, r.classifications);
    var c := if r.purpose == "" then [] else [Term(AllowedPurposes, r.purpose)];
    var d := MetadataClauses(r.metadataFilters, |SUPPORTED|);
    MatchesConcat(head + a + b + c, d, row, now);
    MatchesConcat(head + a + b, c, row, now);
    MatchesConcat(head + a, b, row, now);
    MatchesConcat(head, a, row, now);
    HeadMeaning(row, r.tenantId, now);
    OptionalTermsMeaning(row, DomainField, row.document.domain, r.corpora, now);
    OptionalTermsMeaning(row, Classification, row.document.governance.classification, r.classifications, now);
    PurposeMeaning(row, r.purpose, now);
    MetadataClausesMeaning(row, r.metadataFilters, |SUPPORTED|, now);
    SupportedMeaning(row, r.metadataFilters);
  }

  // The same on the chunk itself: each clause in the field of the document it stands for.
  lemma InstitutionalMeaning(d: ContextDocument, r: SearchRequest, now: int)
    ensures Matches(InstitutionalFilters(r), Chunk(d), now) <==>
      var f := r.metadataFilters;
      && d.tenantId == r.tenantId && !d.validity.isDeleted
      && (r.corpora == [] || d.domain in r.corpora)
      && (r.classifications == [] || d.governance.classification in r.classifications)
      && (r.purpose == "" || r.purpose in d.governance.allowedPurposes)
      && (Filter(f, "brand") == [] || exists k :: k in d.keywords && k in Filter(f, "brand"))
      && (Filter(f, "market") == [] || d.governance.region in Filter(f, "market"))
      && (Filter(f, "record_id") == [] || d.source.recordId in Filter(f, "record_id"))
      && (Filter(f, "entity_type") == [] || d.entityType in Filter(f, "entity_type"))
      && (Filter(f, "source") == [] || d.source.system in Filter(f, "source"))
  {
    ClausesMeaning(Chunk(d), r, now);
    assert Values(Chunk(d), TenantId) == [d.tenantId];
    FiltersMeaning(d, r.metadataFilters);
  }

  lemma FiltersMeaning(d: ContextDocument, f: map<string, seq<string>>)
    ensures SupportedMatch(Chunk(d), f) <==>
      && (Filter(f, "brand") == [] || exists k :: k in d.keywords && k in Filter(f, "brand"))
      && (Filter(f, "market") == [] || d.governance.region in Filter(f, "market"))
      && (Filter(f, "record_id") == [] || d.source.recordId in Filter(f, "record_id"))
      && (Filter(f, "entity_type") == [] || d.entityType in Filter(f, "entity_type"))
      && (Filter(f, "source") == [] || d.source.system in Filter(f, "source"))
  {
    SupportedMeaning(Chunk(d), f);
    assert SUPPORTED == ["brand", "entity_type", "market", "record_id", "source"];
    assert (forall i :: 0 <= i < 5 ==> KeyMatches(Chunk(d), f, SUPPORTED[i])) <==>
      && KeyMatches(Chunk(d), f, SUPPORTED[0]) && KeyMatches(Chunk(d), f, SUPPORTED[1])
      && KeyMatches(Chunk(d), f, SUPPORTED[2]) && KeyMatches(Chunk(d), f, SUPPORTED[3])
      && KeyMatches(Chunk(d), f, SUPPORTED[4]);
  }

  lemma HeadMeaning(row: Row, tenantId: string, now: int)
    requires row.Chunk?
    ensures Matches([Term(TenantId, tenantId), IsFlag(ValidityDeleted, false)], row, now)
       <==> Values(row, TenantId) == [tenantId] && IsLive(row)
  {
    TwoClauses(Term(TenantId, tenantId), IsFlag(ValidityDeleted, false), row, now);
    assert Values(row, TenantId) == [row.document.tenantId];
  }

  lemma PurposeMeaning(row: Row, purpose: string, now: int)
    ensures Matches(if purpose == "" then [] else [Term(AllowedPurposes, purpose)], row, now)
       <==> purpose == "" || purpose in Values(row, AllowedPurposes)
  {
    if purpose != "" {
      assert Matches([Term(AllowedPurposes, purpose)], row, now) <==> Holds(Term(AllowedPurposes, purpose), row, now);
    }
  }

  lemma SupportedMeaning(row: Row, filters: map<string, seq<string>>)
    ensures SupportedMatch(row, filters)
       <==> forall i :: 0 <= i < |SUPPORTED| ==> KeyMatches(row, filters, SUPPORTED[i])
  {
    if forall i :: 0 <= i < |SUPPORTED| ==> KeyMatches(row, filters, SUPPORTED[i]) {
      forall key | key in filters && key in SUPPORTED && filters[key] != []
        ensures MetadataMatch(MetadataValue(row, key), filters[key])
      {
        var i :| 0 <= i < |SUPPORTED| && SUPPORTED[i] == key;
        assert KeyMatches(row, filters, SUPPORTED[i]);
      }
    }
  }

  // A supported key asks for some value; an unsupported one asks for what str(None) gives.
  predicate Translatable(filters: map<string, seq<string>>) {
    forall key :: key in filters ==>
      if key in SUPPORTED then filters[key] != [] else "None" in filters[key]
  }

  function FirstOf(values: seq<string>): string {
    if values == [] then "" else values[0]
  }

  function Asked(filters: map<string, seq<string>>, key: string): string {
    if key in filters then FirstOf(filters[key]) else ""
  }

  // Any other key names nothing.
  lemma UnsupportedIsNone(row: Row, key: string)
    ensures row.Chunk? ==> (key !in SUPPORTED <==> MetadataValue(row, key) == One(None))
  {
    MappedAreSupported(key);
  }

  // A chunk every clause of the request accepts.
  function Sample(r: SearchRequest): ContextDocument {
    var f := r.metadataFilters;
    ContextDocument("d", "c", r.tenantId, FirstOf(r.corpora), Asked(f, "entity_type"), "t", "x", [],
                    [Asked(f, "brand")],
                    SourceRef(Asked(f, "source"), "r", Asked(f, "record_id"), "u", "1"),
                    Validity(0, 0, None, None, false),
                    Governance(FirstOf(r.classifications), [], [r.purpose], Asked(f, "market"), "standard"),
                    Lineage("e", "p", "m", "h"), Untrusted)
  }

  lemma SampleMatches(r: SearchRequest, now: int)
    ensures Matches(InstitutionalFilters(r), Chunk(Sample(r)), now)
  {
    var row, f := Chunk(Sample(r)), r.metadataFilters;
    forall key | key in f && key in SUPPORTED && f[key] != []
      ensures MetadataMatch(MetadataValue(row, key), f[key])
    {
      var v := f[key][0];
      assert Asked(f, key) == v;
      if key == "brand" {
        assert v in [Asked(f, "brand")] && v in f[key];
      }
    }
    ClausesMeaning(row, r, now);
  }

  // What the check on the way back asks of a chunk, in its own fields: every key that is sent must
  // be met, and one that names nothing only by the text "None".
  lemma PermittedMeaning(d: ContextDocument, r: SearchRequest, now: int)
    requires !IsMemoryRequest(r)
    ensures IsPermitted(Chunk(d), r, now) <==>
      && d.tenantId == r.tenantId && !d.validity.isDeleted
      && (r.corpora == [] || d.domain in r.corpora)
      && (r.classifications == [] || d.governance.classification in r.classifications)
      && (r.purpose == "" || r.purpose in d.governance.allowedPurposes)
      && forall key :: key in r.metadataFilters ==>
           var asked := r.metadataFilters[key];
           if key == "brand" then exists k :: k in d.keywords && k in asked
           else if key == "market" then d.governance.region in asked
           else if key == "record_id" then d.source.recordId in asked
           else if key == "entity_type" then d.entityType in asked
           else if key == "source" then d.source.system in asked
           else "None" in asked
  {
    assert Values(Chunk(d), TenantId) == [d.tenantId];
  }

  // For a non-memory request the clauses and the check accept the same chunks exactly when the
  // metadata filters are translatable.
  lemma TranslationIsExact(r: SearchRequest, now: int)
    requires !IsMemoryRequest(r)
    ensures (forall d :: Matches(InstitutionalFilters(r), Chunk(d), now) <==> IsPermitted(Chunk(d), r, now))
       <==> Translatable(r.metadataFilters)
  {
    var f := r.metadataFilters;
    if Translatable(f) {
      forall d ensures Matches(InstitutionalFilters(r), Chunk(d), now) <==> IsPermitted(Chunk(d), r, now) {
        ClausesMeaning(Chunk(d), r, now);
        forall key | key in f && key !in SUPPORTED ensures MetadataMatch(MetadataValue(Chunk(d), key), f[key]) {
          UnsupportedIsNone(Chunk(d), key);
        }
        assert SupportedMatch(Chunk(d), f) <==> MetadataMatches(Chunk(d), f);
      }
    } else {
      SampleMatches(r, now);
      var key :| key in f && !(if key in SUPPORTED then f[key] != [] else "None" in f[key]);
      UnsupportedIsNone(Chunk(Sample(r)), key);
      assert !MetadataMatch(MetadataValue(Chunk(Sample(r)), key), f[key]);
      assert !IsPermitted(Chunk(Sample(r)), r, now);
    }
  }

  // So the check drops none of the rows the index returned, and their ranks are the index's own.
  lemma {:induction false} NothingIsDropped(rows: seq<Row>, r: SearchRequest, now: int)
    requires !IsMemoryRequest(r) && Translatable(r.metadataFilters)
    requires forall row :: row in rows ==> row.Chunk? && Matches(InstitutionalFilters(r), row, now)
    ensures PermittedOf(rows, r, now) == rows
  {
    if rows != [] {
      var n := |rows|;
      NothingIsDropped(rows[..n - 1], r, now);
      var last := rows[n - 1];
      assert last in rows;
      TranslationIsExact(r, now);
      assert IsPermitted(Chunk(last.document), r, now);
    }
  }

  // ---------------------------------------------------------------- memory translation

  lemma StatusMeaning(row: Row, now: int)
    requires row.Memory?
    ensures Holds(Not(Terms(Status, ["expired", "superseded"])), row, now)
       <==> row.entry.status.None? || row.entry.status.value !in ["expired", "superseded"]
  {
    if row.entry.status.Some? {
      SingleIntersects(row.entry.status.value, ["expired", "superseded"]);
    }
    assert Holds(Not(Terms(Status, ["expired", "superseded"])), row, now)
      <==> !Holds(Terms(Status, ["expired", "superseded"]), row, now);
  }

  lemma ExpiryMeaning(row: Row, now: int)
    requires row.Memory?
    ensures Holds(Either(Missing(ExpiresAt), AfterNow(ExpiresAt)), row, now)
       <==> row.entry.expiresAt.None? || row.entry.expiresAt.value > now
  {
    assert Values(row, ExpiresAt) == [] && Flag(row, ExpiresAt).None?;
    assert Holds(Missing(ExpiresAt), row, now) <==> row.entry.expiresAt.None?;
    assert Holds(Either(Missing(ExpiresAt), AfterNow(ExpiresAt)), row, now)
      <==> Holds(Missing(ExpiresAt), row, now) || Holds(AfterNow(ExpiresAt), row, now);
  }

  lemma MemoryMeaning(row: Row, r: SearchRequest, now: int)
    requires row.Memory? && IsMemoryRequest(r)
    ensures Matches(MemoryFilters(r), row, now) <==> IsPermitted(row, r, now)
  {
    var m := row.entry;
    var tenant, live := Term(TenantId, r.tenantId), IsFlag(Deleted, false);
    var a, b := TermsIf(NamespaceField, r.namespaces), TermsIf(MemoryTypeField, r.memoryTypes);
    var unexpired, active :=
      Either(Missing(ExpiresAt), AfterNow(ExpiresAt)), Not(Terms(Status, ["expired", "superseded"]));
    MatchesConcat([tenant, live] + a + b, [unexpired, active], row, now);
    MatchesConcat([tenant, live] + a, b, row, now);
    MatchesConcat([tenant, live], a, row, now);
    TwoClauses(tenant, live, row, now);
    TwoClauses(unexpired, active, row, now);
    OptionalTermsMeaning(row, NamespaceField, m.namespace, r.namespaces, now);
    OptionalTermsMeaning(row, MemoryTypeField, m.memoryType, r.memoryTypes, now);
    StatusMeaning(row, now);
    ExpiryMeaning(row, now);
    assert Values(row, TenantId) == [m.tenantId];
  }

  // The index evaluates the query at one instant and the check runs at another, not earlier: a
  // memory that passes the check matched the query, and one that matched fails the check exactly
  // when it expired in between.
  lemma MemoryTranslation(row: Row, r: SearchRequest, queried: int, checked: int)
    requires row.Memory? && IsMemoryRequest(r) && queried <= checked
    ensures IsPermitted(row, r, checked) ==> Matches(MemoryFilters(r), row, queried)
    ensures Matches(MemoryFilters(r), row, queried) ==>
      (!IsPermitted(row, r, checked) <==> row.entry.expiresAt.Some? && row.entry.expiresAt.value <= checked)
  {
    MemoryMeaning(row, r, queried);
    MemoryMeaning(row, r, checked);
  }

  // ---------------------------------------------------------------- the service's requests

  datatype Decision = Decision(
    allow: bool, tenantId: string, corpora: seq<string>, classifications: seq<string>, namespaces: seq<string>,
    resultLimit: Option<int>)

  datatype RetrievePayload = RetrievePayload(
    corpora: seq<string>, filters: map<string, seq<string>>, purpose: string, resultLimit: int,
    candidateLimit: int)

  const MAX_RESULTS := 100
  const MAX_CANDIDATES := 500

  // The limits the public request model accepts.
  predicate ApiLimits(p: RetrievePayload) {
    1 <= p.resultLimit <= 50 && p.resultLimit <= p.candidateLimit <= 500
  }

  predicate SubsetOf(requested: seq<string>, allowed: seq<string>) {
    forall v :: v in requested ==> v in allowed
  }

  function InOrder(requested: seq<string>, allowed: seq<string>): (both: seq<string>)
    ensures forall v :: v in both <==> v in requested && v in allowed
  {
    if requested == [] then []
    else
      assert requested == [requested[0]] + requested[1..];
      (if requested[0] in allowed then [requested[0]] else []) + InOrder(requested[1..], allowed)
  }

  function Intersection(requested: seq<string>, allowed: seq<string>): seq<string> {
    if allowed == [] then [] else if requested == [] then allowed else InOrder(requested, allowed)
  }

  // The metadata filters the service lets through, a list of its own.
  const SERVICE_FILTERS: set<string> := {"brand", "market", "record_id", "entity_type", "source"}

  lemma ServiceFiltersAreSupported(key: string)
    ensures key in SERVICE_FILTERS <==> key in SUPPORTED
  {
    MappedAreSupported(key);
  }

  function MetadataFilters(filters: map<string, seq<string>>): Result<map<string, seq<string>>> {
    if exists key :: key in filters && key !in SERVICE_FILTERS && key != "namespace" && key != "classification" then
      Raise(ValueError)
    else Ok(map key | key in filters && key in SERVICE_FILTERS && filters[key] != [] :: filters[key])
  }

  // min(requested, decision.result_limit or requested): a limit of 0 is no limit.
  function LimitFor(requested: int, decision: Decision): int {
    match decision.resultLimit
    case Some(most) => if most != 0 && most < requested then most else requested
    case None => requested
  }

  // execute and _retrieve up to the search: None answers with no results and no search.
  function RetrieveRequest(tenantId: string, p: RetrievePayload, decision: Decision): Result<Option<SearchRequest>> {
    if !decision.allow || decision.tenantId != tenantId then Raise(PermissionError)
    else if !SubsetOf(p.corpora, decision.corpora) then Raise(PermissionError)
    else
      var corpora := Intersection(p.corpora, decision.corpora);
      if corpora == [] then Ok(None)
      else
        var requested := Filter(p.filters, "classification");
        var classifications := Intersection(requested, decision.classifications);
        if requested != [] && classifications == [] then Raise(PermissionError)
        else if decision.classifications == [] then Ok(None)
        else
          match MetadataFilters(p.filters)
          case Raise(error) => Raise(error)
          case Ok(metadata) =>
            var limit := LimitFor(p.resultLimit, decision);
            var candidates := if limit < p.candidateLimit then p.candidateLimit else limit;
            Ok(Some(SearchRequest(
                      tenantId, corpora, Intersection(Filter(p.filters, "namespace"), decision.namespaces),
                      classifications, candidates, candidates, metadata, p.purpose, [])))
  }

  // A policy limit caps the requested one; none, or zero, leaves it.
  lemma LimitExactly(requested: int, decision: Decision)
    ensures var n := LimitFor(requested, decision);
      && n <= requested && (n == requested || decision.resultLimit == Some(n))
      && (decision.resultLimit.Some? && decision.resultLimit.value != 0 ==> n <= decision.resultLimit.value)
      && (decision.resultLimit == None || decision.resultLimit == Some(0) ==> n == requested)
  {
  }

  lemma IntersectionMembers(requested: seq<string>, allowed: seq<string>)
    ensures var both := Intersection(requested, allowed);
      && (forall v :: v in both <==> v in allowed && (requested == [] || v in requested))
      && (both == [] <==> allowed == [] || (requested != [] && forall v :: v in requested ==> v !in allowed))
  {
    var both := Intersection(requested, allowed);
    if both != [] {
      assert both[0] in both;
    }
  }

  // The filters a caller may name.
  predicate FilterKey(key: string) {
    key in ["brand", "market", "record_id", "entity_type", "source", "namespace", "classification"]
  }

  // Every answer to a retrieve request before its search: who is turned away, who gets an empty
  // result without a search, and what is searched for otherwise.
  lemma RetrieveAnswers(tenantId: string, p: RetrievePayload, decision: Decision)
    ensures
      var built, asked := RetrieveRequest(tenantId, p, decision), Filter(p.filters, "classification");
      if !decision.allow || decision.tenantId != tenantId || (exists c :: c in p.corpora && c !in decision.corpora) then
        built == Raise(PermissionError)
      else if decision.corpora == [] then built == Ok(None)
      else if asked != [] && (forall c :: c in asked ==> c !in decision.classifications) then
        built == Raise(PermissionError)
      else if decision.classifications == [] then built == Ok(None)
      else if exists key :: key in p.filters && !FilterKey(key) then built == Raise(ValueError)
      else
        && built.Ok? && built.value.Some?
        && var r := built.value.value;
           && r.tenantId == tenantId && r.purpose == p.purpose && r.memoryTypes == []
           && (forall c :: c in r.corpora <==> c in decision.corpora && (p.corpora == [] || c in p.corpora))
           && (forall c :: c in r.classifications <==> c in decision.classifications && (asked == [] || c in asked))
           && r.limit == r.candidateLimit
           && r.limit >= p.candidateLimit && r.limit >= LimitFor(p.resultLimit, decision)
           && r.limit in [p.candidateLimit, LimitFor(p.resultLimit, decision)]
           && (forall key :: key in r.metadataFilters <==>
                 && key in p.filters && p.filters[key] != []
                 && key in ["brand", "market", "record_id", "entity_type", "source"])
           && (forall key :: key in r.metadataFilters ==> r.metadataFilters[key] == p.filters[key])
  {
    IntersectionMembers(p.corpora, decision.corpora);
    IntersectionMembers(Filter(p.filters, "classification"), decision.classifications);
    ServiceKeys();
  }

  lemma ServiceKeys()
    ensures forall key :: key in SERVICE_FILTERS <==> key in ["brand", "market", "record_id", "entity_type", "source"]
    ensures forall key :: FilterKey(key) <==> key in SERVICE_FILTERS || key == "namespace" || key == "classification"
  {
  }

  function ValidateSearch(r: SearchRequest): Result<()> {
    if r.tenantId == "" then Raise(ValueError)
    else if !(1 <= r.limit <= MAX_RESULTS) then Raise(ValueError)
    else if !(1 <= r.candidateLimit <= MAX_CANDIDATES) then Raise(ValueError)
    else if !IsMemoryRequest(r) && r.classifications == [] then Raise(ValueError)
    else Ok(())
  }

  // Every request the service builds is translatable, so for those the post-check is redundant.
  lemma ServiceRequestsTranslate(tenantId: string, p: RetrievePayload, decision: Decision, now: int)
    requires var built := RetrieveRequest(tenantId, p, decision);
      built.Ok? && built.value.Some? && !IsMemoryRequest(built.value.value)
    ensures var r := RetrieveRequest(tenantId, p, decision).value.value;
      && Translatable(r.metadataFilters)
      && (forall d :: Matches(InstitutionalFilters(r), Chunk(d), now) <==> IsPermitted(Chunk(d), r, now))
  {
    var r := RetrieveRequest(tenantId, p, decision).value.value;
    forall key | key in r.metadataFilters ensures key in SUPPORTED && r.metadataFilters[key] != [] {
      ServiceFiltersAreSupported(key);
    }
    TranslationIsExact(r, now);
  }

  // Whatever the filters, a row the service may return is live and inside the policy decision.
  lemma PolicyIsNeverWidened(tenantId: string, p: RetrievePayload, decision: Decision, d: ContextDocument, now: int)
    requires var built := RetrieveRequest(tenantId, p, decision);
      && built.Ok? && built.value.Some? && !IsMemoryRequest(built.value.value)
      && Matches(InstitutionalFilters(built.value.value), Chunk(d), now)
    ensures d.tenantId == decision.tenantId == tenantId && !d.validity.isDeleted
    ensures d.domain in decision.corpora && (p.corpora == [] || d.domain in p.corpora)
    ensures d.governance.classification in decision.classifications
    ensures var asked := Filter(p.filters, "classification"); asked == [] || d.governance.classification in asked
    ensures p.purpose == "" || p.purpose in d.governance.allowedPurposes
    ensures var f := p.filters;
      && (Filter(f, "brand") == [] || exists k :: k in d.keywords && k in Filter(f, "brand"))
      && (Filter(f, "market") == [] || d.governance.region in Filter(f, "market"))
      && (Filter(f, "record_id") == [] || d.source.recordId in Filter(f, "record_id"))
      && (Filter(f, "entity_type") == [] || d.entityType in Filter(f, "entity_type"))
      && (Filter(f, "source") == [] || d.source.system in Filter(f, "source"))
    ensures forall key :: key in p.filters ==> FilterKey(key)
  {
    var r := RetrieveRequest(tenantId, p, decision).value.value;
    InstitutionalMeaning(d, r, now);
    forall key | key in SERVICE_FILTERS ensures Filter(r.metadataFilters, key) == Filter(p.filters, key) {
    }
  }

  // The public model admits 500 candidates, but the service sends the candidate limit as the hit
  // limit too, and that is capped at 100: beyond it every search is refused.
  lemma AcceptedUpToHundredCandidates(tenantId: string, p: RetrievePayload, decision: Decision)
    requires ApiLimits(p) && tenantId != "" && (decision.resultLimit.Some? ==> decision.resultLimit.value >= 0)
    requires var built := RetrieveRequest(tenantId, p, decision); built.Ok? && built.value.Some?
    ensures ValidateSearch(RetrieveRequest(tenantId, p, decision).value.value)
         == if p.candidateLimit <= 100 then Ok(()) else Raise(ValueError)
  {
    var r := RetrieveRequest(tenantId, p, decision).value.value;
    var asked := Filter(p.filters, "classification");
    assert asked == [] ==> r.classifications == decision.classifications;
    assert r.classifications != [];
  }

  // Such requests exist: with a permissive policy, 101 candidates are asked for and refused.
  lemma HundredAndOneIsRefused()
    ensures
      var p := RetrievePayload(["c"], map[], "p", 10, 101);
      var built := RetrieveRequest("t", p, Decision(true, "t", ["c"], ["public"], [], None));
      ApiLimits(p) && built.Ok? && built.value.Some? && ValidateSearch(built.value.value) == Raise(ValueError)
  {
    var p, decision := RetrievePayload(["c"], map[], "p", 10, 101), Decision(true, "t", ["c"], ["public"], [], None);
    assert "c" in InOrder(["c"], ["c"]);
    AcceptedUpToHundredCandidates("t", p, decision);
  }

  // _search_memory: None answers with no items.
  function MemorySearchRequest(tenantId: string, namespace: string, memoryTypes: seq<string>, resultLimit: int,
                               decision: Decision): Result<Option<SearchRequest>> {
    if !decision.allow || decision.tenantId != tenantId then Raise(PermissionError)
    else if namespace !in decision.namespaces then Ok(None)
    else
      Ok(Some(SearchRequest(tenantId, ["memory"], [namespace], ["memory"], LimitFor(resultLimit, decision), 100,
                            map[], "", memoryTypes)))
  }

  lemma MemorySearchStaysInNamespace(tenantId: string, namespace: string, memoryTypes: seq<string>, limit: int,
                                     decision: Decision, row: Row, queried: int)
    requires row.Memory?
    requires var built := MemorySearchRequest(tenantId, namespace, memoryTypes, limit, decision);
      built.Ok? && built.value.Some? && Matches(MemoryFilters(built.value.value), row, queried)
    ensures row.entry.tenantId == decision.tenantId == tenantId && !row.entry.deleted
    ensures row.entry.namespace == namespace && namespace in decision.namespaces
    ensures row.entry.expiresAt.None? || row.entry.expiresAt.value > queried
  {
    var r := MemorySearchRequest(tenantId, namespace, memoryTypes, limit, decision).value.value;
    MemoryMeaning(row, r, queried);
    assert Values(row, TenantId) == [row.entry.tenantId];
  }

  // A memory search is carried out exactly for a tenant and between 1 and 100 results.
  lemma MemorySearchAccepted(tenantId: string, namespace: string, memoryTypes: seq<string>, limit: int,
                             decision: Decision)
    requires var built := MemorySearchRequest(tenantId, namespace, memoryTypes, limit, decision);
      built.Ok? && built.value.Some?
    ensures var r := MemorySearchRequest(tenantId, namespace, memoryTypes, limit, decision).value.value;
      ValidateSearch(r) == if tenantId != "" && 1 <= LimitFor(limit, decision) <= 100 then Ok(()) else Raise(ValueError)
  {
  }

  // Exactly what a memory search may return: the live memories of the asked, allowed namespace, of an
  // asked type if types are asked, neither expired nor superseded by status, and not expired by time.
  lemma MemorySearchExactly(tenantId: string, namespace: string, memoryTypes: seq<string>, limit: int,
                            decision: Decision, row: Row, queried: int)
    requires row.Memory?
    ensures
      var built := MemorySearchRequest(tenantId, namespace, memoryTypes, limit, decision);
      if !decision.allow || decision.tenantId != tenantId then built == Raise(PermissionError)
      else if namespace !in decision.namespaces then built == Ok(None)
      else
        && built.Ok? && built.value.Some? && built.value.value.limit == LimitFor(limit, decision)
        && var m := row.entry;
           Matches(MemoryFilters(built.value.value), row, queried) <==>
             && m.tenantId == tenantId && !m.deleted && m.namespace == namespace
             && (memoryTypes == [] || m.memoryType in memoryTypes)
             && m.status != Some("expired") && m.status != Some("superseded")
             && (m.expiresAt.Some? ==> queried < m.expiresAt.value)
  {
    var built := MemorySearchRequest(tenantId, namespace, memoryTypes, limit, decision);
    if built.Ok? && built.value.Some? {
      MemoryMeaning(row, built.value.value, queried);
      assert Values(row, TenantId) == [row.entry.tenantId];
    }
  }
}
