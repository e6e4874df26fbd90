/** The pre-registration lock: canonicalise, hash, store, and detect later changes. */
module Preregistration {
  import opened Wrappers
  import opened SortedEntries
  import opened CanonicalJson
  import Content = CanonicalContent
  import D = Decimals

  /** SHA-256 over the UTF-8 bytes of a text, as lower-case hex; its internals are not modelled. */
  type Hash = string -> string

  ghost predicate CollisionFree(hash: Hash) {
    forall a: string, b: string :: hash(a) == hash(b) ==> a == b
  }

  datatype Metric = MonthlyRecurringRevenue | GrossMargin30d | PaidConversions30d

  datatype Plan = Plan(
    title: string,
    hypothesis: string,
    metric: Metric,
    threshold: D.Decimal,
    windowDays: int,
    analysisPlan: string,
    stoppingRule: string)

  /** Identifier and creation time are carried as the texts that serialization gives them. */
  datatype Record = Record(id: string, createdAt: string, plan: Plan, locked: bool, lockHash: string)

  predicate ValidPlan(p: Plan) {
    && 50 <= |p.hypothesis| <= 1000
    && p.threshold.coeff > 0
    && 14 <= p.windowDays <= 90
    && 100 <= |p.analysisPlan| <= 3000
    && 30 <= |p.stoppingRule| <= 500
  }

  function MetricText(m: Metric): string {
    match m
    case MonthlyRecurringRevenue => "monthly_recurring_revenue_usd"
    case GrossMargin30d => "gross_margin_usd_30d"
    case PaidConversions30d => "paid_conversions_30d"
  }

  const ID := "id"
  const CREATED_AT := "created_at"
  const TITLE := "vertical_title"
  const HYPOTHESIS := "hypothesis"
  const METRIC := "primary_metric"
  const THRESHOLD := "primary_threshold"
  const WINDOW := "measurement_window_days"
  const ANALYSIS := "analysis_plan"
  const STOPPING := "stopping_rule"
  const LOCKED := "locked"
  const LOCK_HASH := "lock_hash"

  const PLACEHOLDER := seq(64, _ => '0')

  /** The record's fields other than the lock hash, in declaration order. */
  function ContentMembers(r: Record): seq<Entry<Json>> {
    [ Entry(ID, Str(r.id)), Entry(CREATED_AT, Str(r.createdAt)), Entry(TITLE, Str(r.plan.title)),
      Entry(HYPOTHESIS, Str(r.plan.hypothesis)), Entry(METRIC, Str(MetricText(r.plan.metric))),
      Entry(THRESHOLD, Str(D.Text(r.plan.threshold))), Entry(WINDOW, Int(r.plan.windowDays)),
      Entry(ANALYSIS, Str(r.plan.analysisPlan)), Entry(STOPPING, Str(r.plan.stoppingRule)),
      Entry(LOCKED, Bool(r.locked)) ]
  }

  /** json.loads(model_dump_json()). */
  function Dump(r: Record): seq<Entry<Json>> {
    ContentMembers(r) + [Entry(LOCK_HASH, Str(r.lockHash))]
  }

  function CanonicalPayload(data: seq<Entry<Json>>): seq<Entry<Json>> {
    if data == [] then []
    else (if data[0].key != LOCK_HASH then [data[0]] else []) + CanonicalPayload(data[1..])
  }

  function ComputeLockHash(hash: Hash, data: seq<Entry<Json>>): Result<string, EncodingError> {
    match CanonicalDumps(Obj(CanonicalPayload(data)))
    case Ok(text) => Ok(hash(text))
    case Err(e) => Err(e)
  }

  predicate VerifyHash(hash: Hash, r: Record) {
    ComputeLockHash(hash, Dump(r)) == Ok(r.lockHash)
  }

  // ---------- what the hash covers

  lemma {:induction false} PayloadConcat(a: seq<Entry<Json>>, b: seq<Entry<Json>>)
    ensures CanonicalPayload(a + b) == CanonicalPayload(a) + CanonicalPayload(b)
  {
    if a == [] {
      assert a + b == b;
    } else {
      assert (a + b)[1..] == a[1..] + b;
      PayloadConcat(a[1..], b);
    }
  }

  lemma {:induction false} PayloadKeepsOthers(a: seq<Entry<Json>>)
    requires forall i :: 0 <= i < |a| ==> a[i].key != LOCK_HASH
    ensures CanonicalPayload(a) == a
  {
    if a == [] {
    } else {
      PayloadKeepsOthers(a[1..]);
      assert a == [a[0]] + a[1..];
    }
  }

  lemma DumpPayload(r: Record)
    ensures CanonicalPayload(Dump(r)) == ContentMembers(r)
  {
    var c := ContentMembers(r);
    PayloadConcat(c, [Entry(LOCK_HASH, Str(r.lockHash))]);
    forall i | 0 <= i < |c| ensures c[i].key != LOCK_HASH {
      KeysDistinct(r);
    }
    PayloadKeepsOthers(c);
  }

  const KEYS :=
    [ID, CREATED_AT, TITLE, HYPOTHESIS, METRIC, THRESHOLD, WINDOW, ANALYSIS, STOPPING, LOCKED, LOCK_HASH]

  const KEY_LENGTHS := [2, 10, 14, 10, 14, 17, 23, 13, 13, 6, 9]

  lemma KeyLengths()
    ensures forall i :: 0 <= i < 11 ==> |KEYS[i]| == KEY_LENGTHS[i]
  {
    assert |ID| == 2 && |CREATED_AT| == 10 && |TITLE| == 14 && |HYPOTHESIS| == 10 && |METRIC| == 14;
    assert |THRESHOLD| == 17 && |WINDOW| == 23 && |ANALYSIS| == 13 && |STOPPING| == 13;
    assert |LOCKED| == 6 && |LOCK_HASH| == 9;
  }

  /** Keys differ in length or in their first character. */
  lemma KeyListDistinct()
    ensures forall i, j :: 0 <= i < j < 11 ==> KEYS[i] != KEYS[j]
  {
    KeyLengths();
    assert CREATED_AT[0] != HYPOTHESIS[0] && TITLE[0] != METRIC[0] && ANALYSIS[0] != STOPPING[0];
    forall i, j | 0 <= i < j < 11 ensures KEYS[i] != KEYS[j] {
      assert KEY_LENGTHS[i] != KEY_LENGTHS[j] || (i, j) in {(1, 3), (2, 4), (7, 8)};
    }
  }

  lemma DumpKeys(r: Record, i: nat)
    requires i < 11
    ensures |Dump(r)| == 11 && Dump(r)[i].key == KEYS[i]
    ensures |ContentMembers(r)| == 10 && (i < 10 ==> ContentMembers(r)[i] == Dump(r)[i])
  {
  }

  lemma KeysDistinct(r: Record)
    ensures Distinct(Dump(r))
    ensures forall i :: 0 <= i < |ContentMembers(r)| ==> ContentMembers(r)[i].key != LOCK_HASH
  {
    KeyListDistinct();
    forall i | 0 <= i < 11
      ensures |Dump(r)| == 11 && Dump(r)[i].key == KEYS[i]
      ensures |ContentMembers(r)| == 10 && (i < 10 ==> ContentMembers(r)[i] == Dump(r)[i])
    {
      DumpKeys(r, i);
    }
    assert KEYS[10] == LOCK_HASH;
  }

  lemma ContentWellFormed(r: Record)
    ensures WellFormed(Obj(ContentMembers(r))) && FloatFree(Obj(ContentMembers(r)))
  {
    KeysDistinct(r);
    var c := ContentMembers(r);
    forall i, j | 0 <= i < j < |c| ensures c[i].key != c[j].key {
      assert Dump(r)[i] == c[i] && Dump(r)[j] == c[j];
    }
  }

  /** For lists with the same keys in the same order, equal text means equal values one by one. */
  lemma SameTextSameValues(a: seq<Entry<Json>>, b: seq<Entry<Json>>)
    requires WellFormed(Obj(a)) && FloatFree(Obj(a)) && WellFormed(Obj(b)) && FloatFree(Obj(b))
    requires |a| == |b| && forall i :: 0 <= i < |a| ==> a[i].key == b[i].key
    requires CanonicalDumps(Obj(a)) == CanonicalDumps(Obj(b))
    ensures forall i :: 0 <= i < |a| ==> Meaning(a[i].val) == Meaning(b[i].val)
  {
    Content.CanonicalTextIsContent(Obj(a), Obj(b));
    assert Meaning(Obj(a)) == Meaning(Obj(b));
    SameMapSameList(MeaningMembers(a), MeaningMembers(b));
    forall i | 0 <= i < |a| ensures Meaning(a[i].val) == Meaning(b[i].val) {
      assert MeaningMembers(a)[i] == MeaningMembers(b)[i];
    }
  }

  lemma SameKeys(a: Record, b: Record)
    ensures |ContentMembers(a)| == |ContentMembers(b)|
    ensures forall i :: 0 <= i < |ContentMembers(a)| ==> ContentMembers(a)[i].key == ContentMembers(b)[i].key
  {
  }

  /** Two records have the same hashed text exactly when they agree on every field but the lock hash. */
  lemma SameContentSameFields(a: Record, b: Record)
    ensures CanonicalDumps(Obj(ContentMembers(a))) == CanonicalDumps(Obj(ContentMembers(b)))
       <==> a.(lockHash := b.lockHash) == b
  {
    if CanonicalDumps(Obj(ContentMembers(a))) == CanonicalDumps(Obj(ContentMembers(b))) {
      ContentWellFormed(a);
      ContentWellFormed(b);
      SameKeys(a, b);
      SameTextSameValues(ContentMembers(a), ContentMembers(b));
      FieldsOfContent(a, b);
    }
  }

  lemma FieldsOfContent(a: Record, b: Record)
    requires forall i :: 0 <= i < |ContentMembers(a)| ==>
               Meaning(ContentMembers(a)[i].val) == Meaning(ContentMembers(b)[i].val)
    ensures a.(lockHash := b.lockHash) == b
  {
    var ca, cb := ContentMembers(a), ContentMembers(b);
    assert Meaning(ca[0].val) == Meaning(cb[0].val) && Meaning(ca[1].val) == Meaning(cb[1].val);
    assert Meaning(ca[2].val) == Meaning(cb[2].val) && Meaning(ca[3].val) == Meaning(cb[3].val);
    assert Meaning(ca[4].val) == Meaning(cb[4].val) && Meaning(ca[5].val) == Meaning(cb[5].val);
    assert Meaning(ca[6].val) == Meaning(cb[6].val) && Meaning(ca[7].val) == Meaning(cb[7].val);
    assert Meaning(ca[8].val) == Meaning(cb[8].val) && Meaning(ca[9].val) == Meaning(cb[9].val);
    MetricTextInjective(a.plan.metric, b.plan.metric);
    D.ReadOfText(a.plan.threshold);
    D.ReadOfText(b.plan.threshold);
  }

  lemma MetricTextInjective(a: Metric, b: Metric)
    ensures MetricText(a) == MetricText(b) <==> a == b
  {
    assert MetricText(MonthlyRecurringRevenue)[0] == 'm' && MetricText(GrossMargin30d)[0] == 'g';
    assert MetricText(PaidConversions30d)[0] == 'p';
  }

  // ---------- the lock

  /** The record that `create` builds: hash with a placeholder lock hash, then attach the real one. */
  function Locked(hash: Hash, id: string, createdAt: string, plan: Plan): Record {
    var provisional := Record(id, createdAt, plan, true, PLACEHOLDER);
    provisional.(lockHash := hash(Encode(Obj(ContentMembers(provisional))) + "\n"))
  }

  lemma VerifyMeansHash(hash: Hash, r: Record)
    ensures VerifyHash(hash, r) <==> r.lockHash == hash(Encode(Obj(ContentMembers(r))) + "\n")
  {
    DumpPayload(r);
    ContentWellFormed(r);
  }

  /** Whatever the hash function is, a record that `create` builds verifies. */
  lemma CreatedVerifies(hash: Hash, id: string, createdAt: string, plan: Plan)
    ensures VerifyHash(hash, Locked(hash, id, createdAt, plan))
  {
    var r := Locked(hash, id, createdAt, plan);
    VerifyMeansHash(hash, r);
    assert ContentMembers(r) == ContentMembers(Record(id, createdAt, plan, true, PLACEHOLDER));
  }

  /** What `create` computes on the way is the lock of that record. */
  lemma LockIsComputed(hash: Hash, id: string, createdAt: string, plan: Plan)
    ensures var provisional := Record(id, createdAt, plan, true, PLACEHOLDER);
            var lock := ComputeLockHash(hash, Dump(provisional));
            lock.Ok? && provisional.(lockHash := lock.value) == Locked(hash, id, createdAt, plan)
    ensures VerifyHash(hash, Locked(hash, id, createdAt, plan))
  {
    var provisional := Record(id, createdAt, plan, true, PLACEHOLDER);
    DumpPayload(provisional);
    ContentWellFormed(provisional);
    CreatedVerifies(hash, id, createdAt, plan);
  }

  /** Tamper evidence: under the lock hash of a verified record, exactly that record verifies. */
  lemma OnlyTheLockedRecordVerifies(hash: Hash, original: Record, r: Record)
    requires CollisionFree(hash)
    requires VerifyHash(hash, original) && r.lockHash == original.lockHash
    ensures VerifyHash(hash, r) <==> r == original
  {
    VerifyMeansHash(hash, original);
    VerifyMeansHash(hash, r);
    SameContentSameFields(r, original);
    ContentWellFormed(r);
    ContentWellFormed(original);
  }

  // ---------- reading a stored payload back

  function Lookup(data: seq<Entry<Json>>, key: string): Json {
    if data == [] then Null
    else if data[|data| - 1].key == key then data[|data| - 1].val
    else Lookup(data[..|data| - 1], key)
  }

  lemma {:induction false} LookupFinds(data: seq<Entry<Json>>, i: nat)
    requires Distinct(data) && i < |data|
    ensures Lookup(data, data[i].key) == data[i].val
  {
    if i == |data| - 1 {
    } else {
      assert data[..|data| - 1][i] == data[i];
      LookupFinds(data[..|data| - 1], i);
    }
  }

  lemma FieldFound(r: Record, i: nat)
    requires i < 11
    ensures |Dump(r)| == 11 && Lookup(Dump(r), KEYS[i]) == Dump(r)[i].val
  {
    KeysDistinct(r);
    DumpKeys(r, i);
    LookupFinds(Dump(r), i);
  }

  lemma TextsFound(r: Record)
    ensures Lookup(Dump(r), ID) == Str(r.id) && Lookup(Dump(r), CREATED_AT) == Str(r.createdAt)
    ensures Lookup(Dump(r), TITLE) == Str(r.plan.title) && Lookup(Dump(r), HYPOTHESIS) == Str(r.plan.hypothesis)
    ensures Lookup(Dump(r), ANALYSIS) == Str(r.plan.analysisPlan)
    ensures Lookup(Dump(r), STOPPING) == Str(r.plan.stoppingRule)
  {
    FieldFound(r, 0);
    FieldFound(r, 1);
    FieldFound(r, 2);
    FieldFound(r, 3);
    FieldFound(r, 7);
    FieldFound(r, 8);
  }

  lemma ValuesFound(r: Record)
    ensures Lookup(Dump(r), METRIC) == Str(MetricText(r.plan.metric))
    ensures Lookup(Dump(r), THRESHOLD) == Str(D.Text(r.plan.threshold))
    ensures Lookup(Dump(r), WINDOW) == Int(r.plan.windowDays) && Lookup(Dump(r), LOCKED) == Bool(r.locked)
    ensures Lookup(Dump(r), LOCK_HASH) == Str(r.lockHash)
  {
    FieldFound(r, 4);
    FieldFound(r, 5);
    FieldFound(r, 6);
    FieldFound(r, 9);
    FieldFound(r, 10);
  }

  function ReadMetric(s: string): Option<Metric> {
    if s == MetricText(MonthlyRecurringRevenue) then Some(MonthlyRecurringRevenue)
    else if s == MetricText(GrossMargin30d) then Some(GrossMargin30d)
    else if s == MetricText(PaidConversions30d) then Some(PaidConversions30d)
    else None
  }

  function StrOf(j: Json): string {
    if j.Str? then j.s else ""
  }

  /** PreRegistration.model_validate, on the payloads that the schema serializes. */
  function ModelValidate(data: seq<Entry<Json>>): Option<Record> {
    var metric := ReadMetric(StrOf(Lookup(data, METRIC)));
    var threshold := D.Read(StrOf(Lookup(data, THRESHOLD)));
    if metric.None? || threshold.None? || !Lookup(data, WINDOW).Int? || !Lookup(data, LOCKED).Bool? then None
    else
      var plan := Plan(StrOf(Lookup(data, TITLE)), StrOf(Lookup(data, HYPOTHESIS)), metric.value, threshold.value,
                       Lookup(data, WINDOW).n, StrOf(Lookup(data, ANALYSIS)), StrOf(Lookup(data, STOPPING)));
      if !ValidPlan(plan) then None
      else Some(Record(StrOf(Lookup(data, ID)), StrOf(Lookup(data, CREATED_AT)), plan,
                         Lookup(data, LOCKED).b, StrOf(Lookup(data, LOCK_HASH))))
  }

  /** Serializing a record and validating the result loses nothing. */
  lemma ValidateOfDump(r: Record)
    requires ValidPlan(r.plan)
    ensures ModelValidate(Dump(r)) == Some(r)
  {
    TextsFound(r);
    ValuesFound(r);
    D.ReadOfText(r.plan.threshold);
    MetricTextInjective(r.plan.metric, MonthlyRecurringRevenue);
    MetricTextInjective(r.plan.metric, GrossMargin30d);
    MetricTextInjective(r.plan.metric, PaidConversions30d);
  }

  // ---------- the table of records

  datatype Row = Row(id: string, lockHash: string, payload: seq<Entry<Json>>)

  datatype CreateResult = Created(record: Record) | ValidationError | IntegrityError

  function RowOf(r: Record): Row {
    Row(r.id, r.lockHash, Dump(r))
  }

  class Registry {
    const hash: Hash
    var rows: seq<Row>

    ghost var records: seq<Record>

    /** Primary keys are unique, and every row stores a locked record that verifies. */
    ghost predicate Valid()
      reads this
    {
      && |records| == |rows|
      && (forall i, j :: 0 <= i < j < |rows| ==> rows[i].id != rows[j].id)
      && (forall i :: 0 <= i < |rows| ==>
            && rows[i] == RowOf(records[i]) && records[i].locked
            && ValidPlan(records[i].plan) && VerifyHash(hash, records[i]))
    }

    constructor (hash: Hash)
      ensures Valid() && rows == [] && this.hash == hash
    {
      this.hash := hash;
      rows := [];
      records := [];
    }

    /** Canonicalise, hash, insert a locked row; `id` and `createdAt` stand for uuid4() and the clock. */
    method Create(id: string, createdAt: string, plan: Plan) returns (r: CreateResult)
      requires Valid()
      modifies this
      ensures Valid()
      ensures r.ValidationError? <==>
                !(&& 50 <= |plan.hypothesis| <= 1000 && plan.threshold.coeff > 0 && 14 <= plan.windowDays <= 90
                  && 100 <= |plan.analysisPlan| <= 3000 && 30 <= |plan.stoppingRule| <= 500)
      ensures r.IntegrityError? <==> ValidPlan(plan) && exists i :: 0 <= i < |old(rows)| && old(rows)[i].id == id
      ensures !r.Created? ==> rows == old(rows) && records == old(records)
      ensures r.Created? ==> VerifyHash(hash, r.record) && r.record.locked
      ensures r.Created? ==> r.record == Locked(hash, id, createdAt, plan)
      ensures r.Created? ==> r.record.id == id && r.record.createdAt == createdAt && r.record.plan == plan
      ensures r.Created? ==> rows == old(rows) + [RowOf(r.record)] && records == old(records) + [r.record]
    {
      if !ValidPlan(plan) {
        return ValidationError;
      }
      var provisional := Record(id, createdAt, plan, true, PLACEHOLDER);
      var lock := ComputeLockHash(hash, Dump(provisional));
      LockIsComputed(hash, id, createdAt, plan);
      var record := provisional.(lockHash := lock.value);
      if exists i :: 0 <= i < |rows| && rows[i].id == id {
        return IntegrityError;
      }
      rows := rows + [RowOf(record)];
      records := records + [record];
      r := Created(record);
    }

    lemma StoredReadsBack(i: nat)
      requires Valid() && i < |rows|
      ensures ModelValidate(rows[i].payload) == Some(records[i]) && records[i].id == rows[i].id
    {
      assert rows[i] == RowOf(records[i]);
      ValidateOfDump(records[i]);
    }

    /** The record stored under an id, or none; what comes back always verifies. */
    method Get(id: string) returns (r: Option<Record>)
      requires Valid()
      ensures r.None? <==> forall i :: 0 <= i < |rows| ==> rows[i].id != id
      ensures r.Some? ==> r.value.id == id && r.value.locked && VerifyHash(hash, r.value)
      ensures r.Some? ==> exists i :: 0 <= i < |rows| && records[i] == r.value
    {
      for i := 0 to |rows|
        invariant forall k :: 0 <= k < i ==> rows[k].id != id
      {
        if rows[i].id == id {
          StoredReadsBack(i);
          return ModelValidate(rows[i].payload);
        }
      }
      r := None;
    }
  }
}
