/** Stream events and the rows the worker builds from them.

    A body maps each JSON key the client sent to its value; a key is named by the
    column it feeds (`model` is ProvidedModelName, `usage_details` is UsageDetails,
    `cost_details` is CostDetails). A body's time is already parsed: a string that
    is no RFC 3339 time is any value other than `Time`. */
module Events {
  import opened Tables

  type Body = map<Column, Value>

  datatype Event =
    | TraceCreate(project: string, id: string, stamp: Option<int>, body: Body)
    | ObservationCreate(project: string, id: string, traceId: string, stamp: Option<int>, body: Body)
    | ObservationUpdate(project: string, id: string, traceId: string, stamp: Option<int>, body: Body)
    | ScoreCreate(project: string, id: string, stamp: Option<int>, score: ScoreBody)
    | Unknown    // a `type` the worker does not dispatch on
    | Malformed  // raises whenever it is applied: no JSON object, a key the row builders index
                 // without a default is missing, or a stored text holds U+0000

  datatype ScoreBody = ScoreBody(
    traceId: Option<string>, observationId: Option<string>, runItemId: Option<string>, name: string,
    dataType: Value, value: Option<real>, stringValue: Option<string>, comment: Option<string>)

  datatype Score = Score(
    traceId: Option<string>, observationId: Option<string>, runItemId: Option<string>, name: string,
    dataType: string, value: Option<real>, stringValue: Option<string>, source: string,
    comment: Option<string>, timestamp: int, createdAt: int)

  predicate IsObservation(e: Event) {
    e.ObservationCreate? || e.ObservationUpdate?
  }

  // --- conversion helpers --------------------------------------------------

  /** Python truthiness of a JSON value. */
  predicate Truthy(v: Value) {
    match v
    case Null => false
    case Text(s) => s != ""
    case Time(_) => true
    case Whole(n) => n != 0
    case Flag(b) => b
    case Counts(m) => m != []
    case Costs(m) => m != []
    case Amount(r) => r != 0.0
  }

  function Get(body: Body, c: Column): Value {
    if c in body then body[c] else Null
  }

  function Ts(v: Value): Value {
    if v.Time? then v else Null
  }

  function StripPrefix(s: string, prefix: string): string {
    if prefix <= s then s[|prefix|..] else s
  }

  /** An enum name without its proto prefix; the default for an empty or UNSPECIFIED one. */
  function EnumName(v: Value, prefix: string, default: Value): Value {
    if !v.Text? || v.text == "" || StripPrefix(v.text, prefix) == "UNSPECIFIED" then default
    else Text(StripPrefix(v.text, prefix))
  }

  function SumCosts(costs: seq<(string, real)>): real {
    if costs == [] then 0.0 else SumCosts(costs[..|costs| - 1]) + costs[|costs| - 1].1
  }

  // --- observation bodies ----------------------------------------------------

  const COPIED: seq<Column> := [ParentId, Name, StatusMessage, Input, Output, Metadata, ModelParameters, PromptName]

  const TIMES: seq<Column> := [StartTime, EndTime, CompletionStartTime]

  predicate IsCopied(c: Column) {
    c.ParentId? || c.Name? || c.StatusMessage? || c.Input? || c.Output? || c.Metadata? || c.ModelParameters? ||
    c.PromptName?
  }

  predicate IsTime(c: Column) {
    c.StartTime? || c.EndTime? || c.CompletionStartTime?
  }

  lemma KeyLists()
    ensures forall c :: c in COPIED <==> IsCopied(c)
    ensures forall c :: c in TIMES <==> IsTime(c)
  {
    assert COPIED[0] == ParentId && COPIED[1] == Name && COPIED[2] == StatusMessage && COPIED[3] == Input &&
           COPIED[4] == Output && COPIED[5] == Metadata && COPIED[6] == ModelParameters && COPIED[7] == PromptName;
    assert TIMES[0] == StartTime && TIMES[1] == EndTime && TIMES[2] == CompletionStartTime;
  }

  /** Does `body` carry a value for column `c` of an observation? */
  predicate Sends(body: Body, c: Column) {
    match c
    case ProvidedUsageDetails => UsageDetails in body
    case ProvidedCostDetails => CostDetails in body
    case TotalCost => CostDetails in body
    case ProvidedModelName | PromptVersion | Type | Level | UsageDetails | CostDetails => c in body
    case _ => (IsCopied(c) || IsTime(c)) && c in body
  }

  /** The coercions that raise on a value of another kind do not raise. */
  predicate Coercible(body: Body) {
    CoercibleKeys(body) && CoercibleMaps(body)
  }

  predicate CoercibleKeys(body: Body) {
    && (PromptVersion in body ==> body[PromptVersion].Whole?)
    && (Type in body && Truthy(body[Type]) ==> body[Type].Text?)
    && (Level in body && Truthy(body[Level]) ==> body[Level].Text?)
  }

  predicate CoercibleMaps(body: Body) {
    && (UsageDetails in body && Truthy(body[UsageDetails]) ==> body[UsageDetails].Counts?)
    && (CostDetails in body && Truthy(body[CostDetails]) ==> body[CostDetails].Costs?)
  }

  function UsageOf(v: Value): Value {
    if Truthy(v) then v else Null
  }

  function TotalOf(v: Value): Value {
    if v.Costs? && v.costs != [] then Amount(SumCosts(v.costs)) else Null
  }

  /** The coerced value of a column the body sends. */
  function SentValue(body: Body, c: Column): Value {
    match c
    case Type => EnumName(Get(body, c), "OBSERVATION_TYPE_", Null)
    case Level => EnumName(Get(body, c), "OBSERVATION_LEVEL_", Text("DEFAULT"))
    case StartTime | EndTime | CompletionStartTime => Ts(Get(body, c))
    case UsageDetails | ProvidedUsageDetails => UsageOf(Get(body, UsageDetails))
    case CostDetails | ProvidedCostDetails => UsageOf(Get(body, CostDetails))
    case TotalCost => TotalOf(Get(body, CostDetails))
    case _ => Get(body, c)
  }

  /** The columns an observation event sent, coerced: what makes an update sparse. */
  function ObservationFields(body: Body): map<Column, Value> {
    map c | c in COLUMNS && Sends(body, c) :: SentValue(body, c)
  }

  /** The keys among `keys` that were sent, each through `coerce`. */
  method CollectKeys(body: Body, keys: seq<Column>, coerce: Value -> Value) returns (out: map<Column, Value>)
    ensures out == map c | c in keys && c in body :: coerce(body[c])
  {
    out := map[];
    for i := 0 to |keys|
      invariant out == map c | c in keys[..i] && c in body :: coerce(body[c])
    {
      if keys[i] in body {
        out := out[keys[i] := coerce(body[keys[i]])];
      }
      assert keys[..i + 1] == keys[..i] + [keys[i]];
    }
    assert keys[..|keys|] == keys;
  }

  predicate IsTyped(c: Column) {
    c.ProvidedModelName? || c.PromptVersion? || c.Type? || c.Level?
  }

  predicate IsPriced(c: Column) {
    c.UsageDetails? || c.ProvidedUsageDetails? || c.CostDetails? || c.ProvidedCostDetails? || c.TotalCost?
  }

  /** The keys with a coercion of their own, read one by one. */
  method CollectTyped(body: Body) returns (r: Result<map<Column, Value>>)
    ensures r.Ok? <==> CoercibleKeys(body)
    ensures r.Ok? ==> forall c :: c in r.value <==> IsTyped(c) && Sends(body, c)
    ensures r.Ok? ==> forall c :: c in r.value ==> r.value[c] == SentValue(body, c)
  {
    var out: map<Column, Value> := map[];
    if ProvidedModelName in body {
      out := out[ProvidedModelName := body[ProvidedModelName]];
    }
    if PromptVersion in body {
      if !body[PromptVersion].Whole? { return Err; }
      out := out[PromptVersion := body[PromptVersion]];
    }
    if Type in body {
      if Truthy(body[Type]) && !body[Type].Text? { return Err; }
      out := out[Type := EnumName(body[Type], "OBSERVATION_TYPE_", Null)];
    }
    if Level in body {
      if Truthy(body[Level]) && !body[Level].Text? { return Err; }
      out := out[Level := EnumName(body[Level], "OBSERVATION_LEVEL_", Text("DEFAULT"))];
    }
    return Ok(out);
  }

  /** Usage and cost maps: each also fills the column that keeps what the client provided. */
  method CollectPriced(body: Body) returns (r: Result<map<Column, Value>>)
    ensures r.Ok? <==> CoercibleMaps(body)
    ensures r.Ok? ==> forall c :: c in r.value <==> IsPriced(c) && Sends(body, c)
    ensures r.Ok? ==> forall c :: c in r.value ==> r.value[c] == SentValue(body, c)
  {
    var out: map<Column, Value> := map[];
    if UsageDetails in body {
      if Truthy(body[UsageDetails]) && !body[UsageDetails].Counts? { return Err; }
      out := out[ProvidedUsageDetails := UsageOf(body[UsageDetails])];
      out := out[UsageDetails := UsageOf(body[UsageDetails])];
    }
    if CostDetails in body {
      if Truthy(body[CostDetails]) && !body[CostDetails].Costs? { return Err; }
      out := out[ProvidedCostDetails := UsageOf(body[CostDetails])];
      out := out[CostDetails := UsageOf(body[CostDetails])];
      out := out[TotalCost := TotalOf(UsageOf(body[CostDetails]))];
    }
    return Ok(out);
  }

  /** The dict the worker fills key by key is `ObservationFields`, and a coercion raises
      exactly when the body is not `Coercible`. */
  method CollectFields(body: Body) returns (r: Result<map<Column, Value>>)
    ensures r.Ok? <==> Coercible(body)
    ensures r.Ok? ==> r.value == ObservationFields(body)
  {
    var copied := CollectKeys(body, COPIED, v => v);
    var typed := CollectTyped(body);
    if typed.Err? { return Err; }
    var times := CollectKeys(body, TIMES, Ts);
    var priced := CollectPriced(body);
    if priced.Err? { return Err; }
    FieldsByColumn(body, copied, typed.value, times, priced.value);
    return Ok(copied + typed.value + times + priced.value);
  }

  lemma ColumnClasses(body: Body, c: Column)
    ensures IsCopied(c) || IsTime(c) ==> (Sends(body, c) <==> c in body)
    ensures Sends(body, c) ==> IsCopied(c) || IsTime(c) || IsTyped(c) || IsPriced(c)
    ensures IsCopied(c) ==> SentValue(body, c) == Get(body, c)
    ensures IsTime(c) ==> SentValue(body, c) == Ts(Get(body, c))
    ensures !(IsCopied(c) && (IsTime(c) || IsTyped(c) || IsPriced(c)))
    ensures !(IsTime(c) && (IsTyped(c) || IsPriced(c))) && !(IsTyped(c) && IsPriced(c))
  {
  }

  /** Dicts that split a dict by key, put together, are that dict. */
  lemma UnionOfParts(whole: map<Column, Value>, a: map<Column, Value>, b: map<Column, Value>, c: map<Column, Value>,
                     d: map<Column, Value>)
    requires forall k :: k in whole <==> k in a || k in b || k in c || k in d
    requires forall k :: k in a ==> a[k] == whole[k]
    requires forall k :: k in b ==> b[k] == whole[k]
    requires forall k :: k in c ==> c[k] == whole[k]
    requires forall k :: k in d ==> d[k] == whole[k]
    ensures a + b + c + d == whole
  {
  }

  lemma FieldsByColumn(body: Body, copied: map<Column, Value>, typed: map<Column, Value>, times: map<Column, Value>,
                       priced: map<Column, Value>)
    requires copied == map c | c in COPIED && c in body :: body[c]
    requires times == map c | c in TIMES && c in body :: Ts(body[c])
    requires forall c :: c in typed <==> IsTyped(c) && Sends(body, c)
    requires forall c :: c in typed ==> typed[c] == SentValue(body, c)
    requires forall c :: c in priced <==> IsPriced(c) && Sends(body, c)
    requires forall c :: c in priced ==> priced[c] == SentValue(body, c)
    ensures copied + typed + times + priced == ObservationFields(body)
  {
    KeyLists();
    forall c
      ensures c in ObservationFields(body) <==> c in copied || c in typed || c in times || c in priced
      ensures c in copied ==> copied[c] == ObservationFields(body)[c]
      ensures c in times ==> times[c] == ObservationFields(body)[c]
    {
      ColumnClasses(body, c);
    }
    UnionOfParts(ObservationFields(body), copied, typed, times, priced);
  }

  // --- row builders ------------------------------------------------------------

  /** The fallback for a time the client did not send. */
  function Stamp(e: Event, now: int): Value
    requires !e.Unknown? && !e.Malformed?
  {
    Time(if e.stamp.Some? then e.stamp.value else now)
  }

  const TRACE_COLUMNS: set<Column> :=
    {Name, UserId, SessionId, Timestamp, Input, Output, Metadata, Tags, Release, Version, IsExperiment,
     CreatedAt, UpdatedAt}

  function TraceValue(e: Event, now: int, c: Column): Value
    requires e.TraceCreate?
  {
    match c
    case Timestamp => if Ts(Get(e.body, c)) != Null then Ts(Get(e.body, c)) else Stamp(e, now)
    case IsExperiment => Flag(Truthy(Get(e.body, c)))
    case CreatedAt | UpdatedAt => Time(now)
    case _ => if c in TRACE_COLUMNS then Get(e.body, c) else Null
  }

  function TraceRow(e: Event, now: int): Row
    requires e.TraceCreate?
  {
    map c | c in COLUMNS :: TraceValue(e, now, c)
  }

  function StubValue(now: int, c: Column): Value {
    match c
    case Timestamp | CreatedAt | UpdatedAt => Time(now)
    case IsExperiment => Flag(false)
    case _ => Null
  }

  /** The stub of a trace that an observation refers to before it has arrived. */
  function StubRow(now: int): Row {
    map c | c in COLUMNS :: StubValue(now, c)
  }

  /** What the INSERT path puts in a column the event did not send. */
  function Placeholder(e: Event, now: int, c: Column): Value
    requires IsObservation(e)
  {
    match c
    case Type => Text("SPAN")
    case Level => Text("DEFAULT")
    case StartTime =>
      if Sends(e.body, EndTime) && SentValue(e.body, EndTime) != Null then SentValue(e.body, EndTime)
      else Stamp(e, now)
    case _ => Null
  }

  function ObservationValue(e: Event, now: int, c: Column): Value
    requires IsObservation(e)
  {
    match c
    case TraceId => Text(e.traceId)
    case CreatedAt | UpdatedAt => Time(now)
    case _ => if Sends(e.body, c) then SentValue(e.body, c) else Placeholder(e, now, c)
  }

  function ObservationRow(e: Event, now: int): Row
    requires IsObservation(e)
  {
    map c | c in COLUMNS :: ObservationValue(e, now, c)
  }

  function ScoreRow(e: Event, now: int): Score
    requires e.ScoreCreate?
  {
    var s := e.score;
    var kind := EnumName(s.dataType, "SCORE_DATA_TYPE_", Text("NUMERIC"));
    Score(s.traceId, s.observationId, s.runItemId, s.name, if kind.Text? then kind.text else "", s.value,
          s.stringValue, "API", s.comment, Stamp(e, now).at, now)
  }

  function KeyOf(e: Event): Key
    requires !e.Unknown? && !e.Malformed?
  {
    Key(e.project, e.id)
  }

  function TraceKeyOf(e: Event): Key
    requires IsObservation(e)
  {
    Key(e.project, e.traceId)
  }

  // --- constraints -----------------------------------------------------------

  const TYPES: set<Value> :=
    {Text("SPAN"), Text("GENERATION"), Text("EVENT"), Text("AGENT"), Text("TOOL"), Text("CHAIN"),
     Text("RETRIEVER"), Text("EMBEDDING"), Text("GUARDRAIL")}

  const LEVELS: set<Value> := {Text("DEBUG"), Text("DEFAULT"), Text("WARNING"), Text("ERROR")}

  predicate TraceCheck(r: Row) {
    r[Timestamp].Time? && r[IsExperiment].Flag?
  }

  /** `end_time IS NULL OR end_time >= start_time` */
  predicate EndsAfterStart(r: Row) {
    r[StartTime].Time? && r[EndTime].Time? ==> r[StartTime].at <= r[EndTime].at
  }

  predicate ObservationCheck(r: Row) {
    && r[TraceId].Text? && r[Type] in TYPES && r[Level] in LEVELS
    && r[StartTime].Time? && (r[EndTime].Null? || r[EndTime].Time?)
    && EndsAfterStart(r)
  }

  /** Exactly one anchor, and a value of the kind the data type calls for. */
  predicate ScoreCheck(s: Score) {
    && s.traceId.Some? != s.runItemId.Some?
    && s.dataType in {"NUMERIC", "CATEGORICAL", "BOOLEAN"}
    && if s.dataType == "CATEGORICAL" then s.stringValue.Some? else s.value.Some?
  }
}
