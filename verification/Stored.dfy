/** What the tables hold after a batch, field by field of the events in it, and which single
    events a batch may hold. */
module Stored {
  import opened Tables
  import opened Events
  import opened Pricing
  import opened Ingest
  import opened SingleCalls
  import opened BatchRefinement
  import opened DbInvariants
  import Convergence

  // --- scores ---------------------------------------------------------------------------------

  predicate NamesScore(e: Event, k: Key) {
    e.ScoreCreate? && e.project == k.project && e.id == k.id
  }

  /** The first event of the batch with a score under `k`. */
  predicate FirstScore(events: seq<Event>, i: nat, k: Key) {
    i < |events| && NamesScore(events[i], k) && forall j :: 0 <= j < i ==> !NamesScore(events[j], k)
  }

  /** The data type without its prefix; NUMERIC when none is sent. */
  predicate DataTypeIs(sent: Value, stored: string) {
    && stored in {"NUMERIC", "CATEGORICAL", "BOOLEAN"}
    && (stored == "CATEGORICAL" <==> sent == Text("CATEGORICAL") || sent == Text("SCORE_DATA_TYPE_CATEGORICAL"))
    && (stored == "BOOLEAN" <==> sent == Text("BOOLEAN") || sent == Text("SCORE_DATA_TYPE_BOOLEAN"))
  }

  /** The stored score is what the event sent. */
  predicate ShowsScore(s: Score, e: Event, now: int)
    requires e.ScoreCreate?
  {
    && s.traceId == e.score.traceId && s.observationId == e.score.observationId && s.runItemId == e.score.runItemId
    && s.name == e.score.name && s.value == e.score.value && s.stringValue == e.score.stringValue
    && s.comment == e.score.comment && DataTypeIs(e.score.dataType, s.dataType)
    && s.source == "API" && s.timestamp == (if e.stamp.Some? then e.stamp.value else now) && s.createdAt == now
  }

  lemma Stripped(s: string, prefix: string)
    ensures prefix <= s ==> prefix + StripPrefix(s, prefix) == s
    ensures !(prefix <= s) ==> StripPrefix(s, prefix) == s
  {
  }

  lemma DataTypeStored(v: Value, stored: string)
    requires EnumName(v, "SCORE_DATA_TYPE_", Text("NUMERIC")) == Text(stored)
    requires stored in {"NUMERIC", "CATEGORICAL", "BOOLEAN"}
    ensures DataTypeIs(v, stored)
  {
    var prefix := "SCORE_DATA_TYPE_";
    assert prefix + "CATEGORICAL" == "SCORE_DATA_TYPE_CATEGORICAL" && prefix + "BOOLEAN" == "SCORE_DATA_TYPE_BOOLEAN";
    if v.Text? {
      Stripped(v.text, prefix);
      hide StripPrefix;
      assert prefix[0] == 'S' && "CATEGORICAL"[0] == 'C' && "BOOLEAN"[0] == 'B';
    }
  }

  lemma RowShows(e: Event, now: int)
    requires e.ScoreCreate? && ScoreCheck(ScoreRow(e, now))
    ensures ShowsScore(ScoreRow(e, now), e, now)
  {
    hide EnumName, DataTypeIs;
    var kind := EnumName(e.score.dataType, "SCORE_DATA_TYPE_", Text("NUMERIC"));
    assert ScoreRow(e, now).dataType in {"NUMERIC", "CATEGORICAL", "BOOLEAN"};
    assert kind.Text?;
    DataTypeStored(e.score.dataType, kind.text);
  }

  /** What is under `k` after a batch: the score that was there, or else what the first event of
      the batch that names it sent, or nothing. */
  ghost predicate ScoresRight(before: map<Key, Score>, after: map<Key, Score>, events: seq<Event>, now: int, k: Key) {
    && (k in before ==> k in after && after[k] == before[k])
    && (forall i: nat :: FirstScore(events, i, k) && k !in before ==> k in after && ShowsScore(after[k], events[i], now))
    && (k in after ==> k in before || exists e :: e in events && NamesScore(e, k))
  }

  lemma ScoresRightOn(before: map<Key, Score>, after: map<Key, Score>, init: seq<Event>, last: Event, now: int, k: Key)
    requires ScoresRight(before, after, init, now, k) && !NamesScore(last, k)
    ensures ScoresRight(before, after, init + [last], now, k)
  {
    hide ShowsScore, NamesScore;
    var events := init + [last];
    forall j | 0 <= j < |init| ensures init[j] == events[j] {}
    forall i: nat | FirstScore(events, i, k) ensures FirstScore(init, i, k) {}
    if e :| e in init && NamesScore(e, k) { assert e in events; }
  }

  lemma ScoresRightNew(before: map<Key, Score>, was: map<Key, Score>, after: map<Key, Score>, init: seq<Event>,
                       last: Event, now: int, k: Key)
    requires ScoresRight(before, was, init, now, k) && NamesScore(last, k)
    requires if k in was then after == was else after == was[k := ScoreRow(last, now)]
    requires ShowsScore(ScoreRow(last, now), last, now)
    ensures ScoresRight(before, after, init + [last], now, k)
  {
    hide ShowsScore, ScoreRow;
    var events := init + [last];
    forall j | 0 <= j < |init| ensures init[j] == events[j] {}
    assert last in events && events[|init|] == last;
    if e :| e in init && NamesScore(e, k) { assert e in events; }
    forall i: nat | FirstScore(events, i, k) && k !in before ensures k in after && ShowsScore(after[k], events[i], now) {
      if i < |init| {
        assert FirstScore(init, i, k);
      } else {
        assert forall e :: e in init ==> !NamesScore(e, k);
      }
    }
  }

  lemma {:induction false} ScoresAfter(scores: map<Key, Score>, events: seq<Event>, now: int, k: Key)
    requires InsertScores(scores, ScoreRows(events, now)).Ok?
    ensures ScoresRight(scores, InsertScores(scores, ScoreRows(events, now)).value, events, now, k)
  {
    hide ShowsScore, ScoreRow, ScoreCheck, ScoresRight, InsertScores;
    if events == [] {
      NoScores(scores, now, k);
    } else {
      var n := |events| - 1;
      var init, last := events[..n], events[n];
      assert events == init + [last];
      var rows, more := ScoreRows(init, now), PartsOf(last, now).scores;
      InsertScoresConcat(scores, rows, more);
      ScoresAfter(scores, init, now, k);
      var was := InsertScores(scores, rows).value;
      if last.ScoreCreate? {
        OneScore(was, KeyOf(last), ScoreRow(last, now));
        RowShows(last, now);
        if NamesScore(last, k) {
          ScoresRightNew(scores, was, InsertScores(was, more).value, init, last, now, k);
        } else {
          OtherScore(scores, was, InsertScores(was, more).value, init, now, k);
          ScoresRightOn(scores, InsertScores(was, more).value, init, last, now, k);
        }
      } else {
        NoScores(was, now, k);
        ScoresRightOn(scores, was, init, last, now, k);
      }
    }
  }

  lemma NoScores(scores: map<Key, Score>, now: int, k: Key)
    ensures InsertScores(scores, []) == Ok(scores) && ScoresRight(scores, scores, [], now, k)
  {
  }

  lemma OtherScore(before: map<Key, Score>, was: map<Key, Score>, after: map<Key, Score>, events: seq<Event>, now: int, k: Key)
    requires ScoresRight(before, was, events, now, k)
    requires (k in after <==> k in was) && (k in was ==> after[k] == was[k])
    ensures ScoresRight(before, after, events, now, k)
  {
    hide ShowsScore, NamesScore, FirstScore;
  }

  lemma OneScore(scores: map<Key, Score>, k: Key, row: Score)
    requires InsertScores(scores, [(k, row)]).Ok?
    ensures ScoreCheck(row)
    ensures InsertScores(scores, [(k, row)]).value == if k in scores then scores else scores[k := row]
  {
    assert [(k, row)][..0] == [];
  }

  /** Scores after a batch. One that was there stays as it was; a new one holds what the first
      event of the batch that names it sent; and there are no others. */
  lemma ScoresStored(db: Db, events: seq<Event>, now: int, prices: Option<Prices>, k: Key)
    requires ApplyEvents(db, events, now, prices).Ok?
    ensures ScoresRight(db.scores, ApplyEvents(db, events, now, prices).value.scores, events, now, k)
  {
    hide ExecAll, InsertScores, ScoreRows, TraceWrites, ObservationWrites, AddStubs, ScoresRight;
    ScoresAfter(db.scores, events, now, k);
  }

  // --- observations ---------------------------------------------------------------------------------

  /** An enum name as sent, without its prefix; `absent` when empty or UNSPECIFIED. */
  predicate EnumIs(sent: Value, prefix: string, absent: Value, v: Value) {
    if !sent.Text? || sent.text == "" || sent.text == "UNSPECIFIED" || sent.text == prefix + "UNSPECIFIED" then v == absent
    else v.Text? && if prefix <= sent.text then prefix + v.text == sent.text else v.text == sent.text
  }

  /** The body sends column `c`. Usage and cost objects each feed the column that keeps what the
      client provided too, and a cost object the total. */
  predicate Carries(b: Body, c: Column) {
    match c
    case UsageDetails | ProvidedUsageDetails => UsageDetails in b
    case CostDetails | ProvidedCostDetails | TotalCost => CostDetails in b
    case Type | Level | StartTime | EndTime | CompletionStartTime => c in b
    case ParentId | Name | StatusMessage | Input | Output | Metadata | ModelParameters => c in b
    case PromptName | ProvidedModelName | PromptVersion => c in b
    case _ => false
  }

  /** What it sends for the column. A time that does not parse, and an empty object, are null. */
  ghost predicate CarriedIs(b: Body, c: Column, v: Value)
    requires Carries(b, c)
  {
    match c
    case Type => EnumIs(b[c], "OBSERVATION_TYPE_", Null, v)
    case Level => EnumIs(b[c], "OBSERVATION_LEVEL_", Text("DEFAULT"), v)
    case StartTime | EndTime | CompletionStartTime => v == if b[c].Time? then b[c] else Null
    case UsageDetails | ProvidedUsageDetails =>
      v == if b[UsageDetails].Counts? && b[UsageDetails].counts != [] then b[UsageDetails] else Null
    case CostDetails | ProvidedCostDetails =>
      v == if b[CostDetails].Costs? && b[CostDetails].costs != [] then b[CostDetails] else Null
    case TotalCost =>
      if b[CostDetails].Costs? && b[CostDetails].costs != [] then v.Amount? && AddsUp(b[CostDetails].costs, v.amount)
      else v == Null
    case _ => v == b[c]
  }

  /** The amounts add up to `total`. */
  ghost predicate AddsUp(costs: seq<(string, real)>, total: real) {
    exists sums: seq<real> ::
      && |sums| == |costs| + 1 && sums[0] == 0.0 && sums[|costs|] == total
      && forall i :: 0 <= i < |costs| ==> sums[i + 1] == sums[i] + costs[i].1
  }

  lemma {:induction false} SumAddsUp(costs: seq<(string, real)>) returns (sums: seq<real>)
    ensures |sums| == |costs| + 1 && sums[0] == 0.0 && sums[|costs|] == SumCosts(costs)
    ensures forall i :: 0 <= i < |costs| ==> sums[i + 1] == sums[i] + costs[i].1
  {
    if costs == [] {
      sums := [0.0];
    } else {
      var n := |costs| - 1;
      var before := SumAddsUp(costs[..n]);
      sums := before + [SumCosts(costs)];
      forall i | 0 <= i < n ensures costs[..n][i] == costs[i] {}
    }
  }

  lemma EnumSent(v: Value, prefix: string, absent: Value)
    requires prefix != "" && prefix[0] == 'O'
    ensures EnumIs(v, prefix, absent, EnumName(v, prefix, absent))
  {
    if v.Text? {
      Stripped(v.text, prefix);
      if prefix <= v.text {
        assert v.text[|prefix|..] == "UNSPECIFIED" <==> v.text == prefix + "UNSPECIFIED";
      }
    }
  }

  lemma UsageSent(b: Body)
    requires CoercibleMaps(b) && UsageDetails in b
    ensures UsageOf(b[UsageDetails]) == if b[UsageDetails].Counts? && b[UsageDetails].counts != [] then b[UsageDetails] else Null
  {
  }

  lemma CostsSent(b: Body)
    requires CoercibleMaps(b) && CostDetails in b
    ensures UsageOf(b[CostDetails]) == if b[CostDetails].Costs? && b[CostDetails].costs != [] then b[CostDetails] else Null
    ensures TotalOf(b[CostDetails]) ==
            if b[CostDetails].Costs? && b[CostDetails].costs != [] then Amount(SumCosts(b[CostDetails].costs)) else Null
  {
  }

  lemma CarriedSent(b: Body, c: Column)
    requires Coercible(b)
    ensures Carries(b, c) <==> Sends(b, c)
    ensures Carries(b, c) ==> CarriedIs(b, c, SentValue(b, c))
  {
    hide EnumName, EnumIs, SumCosts, AddsUp, UsageOf, TotalOf, CoercibleKeys, CoercibleMaps, Truthy;
    match c
    case Type => if c in b { EnumSent(b[c], "OBSERVATION_TYPE_", Null); }
    case Level => if c in b { EnumSent(b[c], "OBSERVATION_LEVEL_", Text("DEFAULT")); }
    case UsageDetails => if c in b { UsageSent(b); }
    case ProvidedUsageDetails => if UsageDetails in b { UsageSent(b); }
    case CostDetails => if c in b { CostsSent(b); }
    case ProvidedCostDetails => if CostDetails in b { CostsSent(b); }
    case TotalCost =>
      if CostDetails in b {
        CostsSent(b);
        if b[CostDetails].Costs? { SumIs(b[CostDetails].costs); }
      }
    case _ =>
  }

  lemma SumIs(costs: seq<(string, real)>)
    ensures AddsUp(costs, SumCosts(costs))
  {
    var sums := SumAddsUp(costs);
  }

  /** A cell of the row an event inserts: what it sends, or a placeholder where the column takes no
      null. */
  ghost predicate NewCell(e: Event, now: int, c: Column, v: Value)
    requires IsObservation(e)
  {
    if c == TraceId then v == Text(e.traceId)
    else if c == CreatedAt || c == UpdatedAt then v == Time(now)
    else if Carries(e.body, c) then CarriedIs(e.body, c, v)
    else if c == Type then v == Text("SPAN")
    else if c == Level then v == Text("DEFAULT")
    else if c != StartTime then v == Null
    else if EndTime in e.body && e.body[EndTime].Time? then v == e.body[EndTime]
    else v == Time(if e.stamp.Some? then e.stamp.value else now)
  }

  /** A cell that held `was` after a create: it is authoritative for the type and the start, and
      replaces any other column it sends a value for. */
  ghost predicate MergedCell(e: Event, now: int, c: Column, was: Value, v: Value)
    requires e.ObservationCreate?
  {
    match c
    case TraceId | CreatedAt => v == was
    case UpdatedAt => v == Time(now)
    case Type | StartTime => NewCell(e, now, c, v)
    case _ =>
      if Carries(e.body, c) then CarriedIs(e.body, c, v) || (CarriedIs(e.body, c, Null) && v == was) else v == was
  }

  /** A cell that held `was` after an update: it replaces the columns it sends, with null too. */
  ghost predicate PatchedCell(e: Event, now: int, c: Column, was: Value, v: Value)
    requires e.ObservationUpdate?
  {
    if c == UpdatedAt then v == Time(now)
    else if Carries(e.body, c) then CarriedIs(e.body, c, v) else v == was
  }

  lemma PlaceholderShows(e: Event, now: int, c: Column)
    requires IsObservation(e) && Coercible(e.body) && !Carries(e.body, c)
    requires c != TraceId && c != CreatedAt && c != UpdatedAt
    ensures NewCell(e, now, c, Placeholder(e, now, c))
  {
    hide CarriedIs, SentValue, Sends, Carries, Coercible;
    if c == StartTime {
      CarriedSent(e.body, EndTime);
      EndCarried(e.body);
    }
  }

  lemma CarriedShows(e: Event, now: int, c: Column)
    requires IsObservation(e) && Coercible(e.body) && Carries(e.body, c)
    ensures NewCell(e, now, c, SentValue(e.body, c))
  {
    hide CarriedIs, SentValue, Sends, Carries, Coercible;
    NotCarried(e.body, c);
    CarriedSent(e.body, c);
  }

  lemma ValueCases(e: Event, now: int, c: Column)
    requires IsObservation(e)
    ensures c == TraceId ==> ObservationValue(e, now, c) == Text(e.traceId)
    ensures c == CreatedAt || c == UpdatedAt ==> ObservationValue(e, now, c) == Time(now)
    ensures c != TraceId && c != CreatedAt && c != UpdatedAt ==>
              ObservationValue(e, now, c) == if Sends(e.body, c) then SentValue(e.body, c) else Placeholder(e, now, c)
  {
    hide SentValue, Sends, Placeholder;
  }

  lemma FixedShows(e: Event, now: int)
    requires IsObservation(e)
    ensures NewCell(e, now, TraceId, Text(e.traceId))
    ensures NewCell(e, now, CreatedAt, Time(now)) && NewCell(e, now, UpdatedAt, Time(now))
  {
  }

  lemma ProposedShows(e: Event, now: int, c: Column)
    requires IsObservation(e) && Coercible(e.body)
    ensures NewCell(e, now, c, ObservationRow(e, now)[c])
  {
    hide CarriedIs, SentValue, Sends, Carries, Coercible, ObservationRow, ObservationValue, NewCell, Placeholder;
    CarriedSent(e.body, c);
    RowCell(e, now, c);
    ValueCases(e, now, c);
    FixedShows(e, now);
    if c != TraceId && c != CreatedAt && c != UpdatedAt {
      if Carries(e.body, c) { CarriedShows(e, now, c); } else { PlaceholderShows(e, now, c); }
    }
  }

  lemma RowCell(e: Event, now: int, c: Column)
    requires IsObservation(e)
    ensures ObservationRow(e, now)[c] == ObservationValue(e, now, c)
  {
  }

  lemma LandedCell(w: Write, row: Row, c: Column)
    ensures Combine(w, row)[c] == if Overwrites(w, c) then w.proposed[c] else row[c]
  {
  }

  lemma EndCarried(b: Body)
    ensures Carries(b, EndTime) <==> EndTime in b
    ensures forall v :: Carries(b, EndTime) && CarriedIs(b, EndTime, v) ==> v == if b[EndTime].Time? then b[EndTime] else Null
  {
  }

  lemma NotCarried(b: Body, c: Column)
    ensures c == TraceId || c == CreatedAt || c == UpdatedAt ==> !Carries(b, c)
  {
  }

  lemma FieldIsSent(b: Body, c: Column)
    ensures c in ObservationFields(b) <==> Sends(b, c)
  {
    hide Sends;
  }

  lemma SentCells(e: Event, now: int, c: Column)
    requires IsObservation(e) && Coercible(e.body)
    ensures Overwrites(StepOf(e, now), c) <==>
            if e.ObservationCreate? then
              (c == UpdatedAt || c == Type || c == StartTime || Carries(e.body, c)) && ObservationRow(e, now)[c] != Null
            else c == UpdatedAt || Carries(e.body, c)
    ensures StepOf(e, now).proposed == ObservationRow(e, now)
  {
    hide CarriedIs, ObservationRow, Coercible, Sends, Carries, ObservationFields;
    CarriedSent(e.body, c);
    NotCarried(e.body, c);
    FieldIsSent(e.body, c);
  }

  lemma MergedShows(e: Event, now: int, c: Column, was: Value, sent: Value)
    requires e.ObservationCreate? && NewCell(e, now, c, sent)
    requires c == Type || c == StartTime ==> sent != Null
    requires Carries(e.body, c) && sent == Null ==> CarriedIs(e.body, c, Null)
    requires c == TraceId || c == CreatedAt || c == UpdatedAt ==> !Carries(e.body, c)
    ensures var written := (c == UpdatedAt || c == Type || c == StartTime || Carries(e.body, c)) && sent != Null;
            MergedCell(e, now, c, was, if written then sent else was)
  {
    hide CarriedIs, Carries;
  }

  lemma LandedShows(e: Event, now: int, c: Column, row: Row)
    requires IsObservation(e) && Coercible(e.body) && ObservationCheck(ObservationRow(e, now))
    ensures e.ObservationCreate? ==> MergedCell(e, now, c, row[c], Combine(StepOf(e, now), row)[c])
    ensures e.ObservationUpdate? ==> PatchedCell(e, now, c, row[c], Combine(StepOf(e, now), row)[c])
  {
    hide CarriedIs, Carries, ObservationRow, StepOf, Overwrites, Combine, Coercible, MergedCell;
    ProposedShows(e, now, c);
    SentCells(e, now, c);
    NotCarried(e.body, c);
    TypeAndStartSet(ObservationRow(e, now));
    LandedCell(StepOf(e, now), row, c);
    if Carries(e.body, c) && ObservationRow(e, now)[c] == Null { NullCarried(e, now, c); }
    if e.ObservationCreate? { MergedShows(e, now, c, row[c], ObservationRow(e, now)[c]); }
  }

  /** A null that is proposed for a column the event sends was sent. */
  lemma NullCarried(e: Event, now: int, c: Column)
    requires IsObservation(e) && Coercible(e.body) && Carries(e.body, c) && ObservationRow(e, now)[c] == Null
    ensures CarriedIs(e.body, c, Null)
  {
    hide CarriedIs, Carries, ObservationRow, Coercible;
    ProposedShows(e, now, c);
    NotCarried(e.body, c);
  }

  lemma TypeAndStartSet(row: Row)
    requires ObservationCheck(row)
    ensures row[Type] != Null && row[StartTime] != Null
  {
  }

  // --- one event of an observation in a batch -------------------------------------------------------

  /** The batch holds one event of the observation, this one. */
  predicate OnlyEvent(events: seq<Event>, e: Event) {
    e in events && IsObservation(e) &&
    forall f :: f in events && IsObservation(f) && f.project == e.project && f.id == e.id ==> f == e
  }

  lemma OneWriter(table: Table, ws: seq<Write>, w: Write, c: Column)
    requires w in ws && forall v :: v in ws && v.key == w.key ==> v == w
    ensures w.key in ApplyAll(table, ws)
    ensures ApplyAll(table, ws)[w.key][c] ==
            if w.key in table then Combine(w, table[w.key])[c] else w.proposed[c]
  {
    CellAfter(table, ws, w.key);
    FirstProposedFrom(ws, w.key);
    LastWrittenFrom(ws, w.key, c);
  }

  lemma ProposedChecked(db: Db, events: seq<Event>, now: int, e: Event)
    requires ApplyEvents(db, events, now, None).Ok? && e in events && IsObservation(e)
    ensures Coercible(e.body) && ObservationCheck(StepOf(e, now).proposed)
  {
    hide ObservationCheck, StepOf, Coercible, ExecAll, InsertScores, AddStubs, ObservationWrites, TraceWrites;
    assert Buildable(e);
    EventWritten(events, now, e);
    ProposedRowsPass(db.observations, ObservationWrites(events, now), ObservationCheck, StepOf(e, now));
  }

  /** After a batch that holds one event of an observation: the cells of a new row, of a row a
      create was merged into, and of one an update patched. */
  lemma ObservationStored(db: Db, events: seq<Event>, now: int, e: Event, c: Column)
    requires ApplyEvents(db, events, now, None).Ok? && OnlyEvent(events, e)
    ensures var k, before, after := Key(e.project, e.id), db.observations, ApplyEvents(db, events, now, None).value.observations;
            && k in after
            && (k !in before ==> NewCell(e, now, c, after[k][c]))
            && (k in before && e.ObservationCreate? ==> MergedCell(e, now, c, before[k][c], after[k][c]))
            && (k in before && e.ObservationUpdate? ==> PatchedCell(e, now, c, before[k][c], after[k][c]))
  {
    hide NewCell, MergedCell, PatchedCell, StepOf, ObservationRow, Coercible, ObservationCheck, ObservationWrites, Combine;
    BatchByTable(db, events, now);
    ProposedChecked(db, events, now, e);
    StepKey(e, now);
    EventWritten(events, now, e);
    var ws, w := ObservationWrites(events, now), StepOf(e, now);
    forall v | v in ws && v.key == w.key ensures v == w {
      var f := BatchStepEvent(events, now, v);
      StepKey(f, now);
    }
    OneWriter(db.observations, ws, w, c);
    SentCells(e, now, c);
    if w.key in db.observations {
      LandedShows(e, now, c, db.observations[w.key]);
    } else {
      ProposedShows(e, now, c);
    }
  }

  /** A batch leaves every other observation as it was, and adds none. */
  lemma OtherObservationsKept(db: Db, events: seq<Event>, now: int, k: Key)
    requires ApplyEvents(db, events, now, None).Ok?
    requires forall e :: e in events && IsObservation(e) ==> Key(e.project, e.id) != k
    ensures var before, after := db.observations, ApplyEvents(db, events, now, None).value.observations;
            (k in after <==> k in before) && (k in before ==> after[k] == before[k])
  {
    hide StepOf, ObservationWrites;
    BatchByTable(db, events, now);
    var ws := ObservationWrites(events, now);
    forall v | v in ws ensures v.key != k {
      var f := BatchStepEvent(events, now, v);
      StepKey(f, now);
    }
    NoWriter(db.observations, ws, k);
  }

  lemma {:induction false} NoWriter(table: Table, ws: seq<Write>, k: Key)
    requires forall v :: v in ws ==> v.key != k
    ensures k in ApplyAll(table, ws) <==> k in table
    ensures k in table ==> ApplyAll(table, ws)[k] == table[k]
  {
    hide Landed;
    if ws != [] {
      NoWriter(table, ws[..|ws| - 1], k);
      assert ws[|ws| - 1] in ws;
    }
  }

  // --- traces ------------------------------------------------------------------------------------------

  /** What Python takes for false. */
  predicate Falsy(v: Value) {
    v in {Null, Text(""), Whole(0), Flag(false), Counts([]), Costs([]), Amount(0.0)}
  }

  lemma TruthyIff(v: Value)
    ensures Truthy(v) <==> !Falsy(v)
  {
  }

  /** The columns of a trace that a body may send. */
  predicate OfTraceBody(c: Column) {
    match c
    case Name | UserId | SessionId | Timestamp | Input | Output | Metadata | Tags | Release | Version | IsExperiment => true
    case _ => false
  }

  /** What a trace_create proposes for a column. */
  predicate TraceCell(e: Event, now: int, c: Column, v: Value)
    requires e.TraceCreate?
  {
    if c == CreatedAt || c == UpdatedAt then v == Time(now)
    else if !OfTraceBody(c) then v == Null
    else if c == Timestamp then
      if c in e.body && e.body[c].Time? then v == e.body[c]
      else v == Time(if e.stamp.Some? then e.stamp.value else now)
    else if c == IsExperiment then
      v == Flag(c in e.body && !Falsy(e.body[c]))
    else v == if c in e.body then e.body[c] else Null
  }

  /** A cell of an existing trace that held `was`, after a trace_create: replaced by a value that is
      sent, kept where none or null is. */
  predicate TraceMerged(e: Event, now: int, c: Column, was: Value, v: Value)
    requires e.TraceCreate?
  {
    if c == UpdatedAt then v == Time(now)
    else if OfTraceBody(c) && c in e.body then TraceCell(e, now, c, v) || (e.body[c] == Null && v == was)
    else v == was
  }

  /** A stub: no more than the times and that it is no experiment. */
  predicate StubCell(now: int, c: Column, v: Value) {
    if c == Timestamp || c == CreatedAt || c == UpdatedAt then v == Time(now)
    else if c == IsExperiment then v == Flag(false)
    else v == Null
  }

  lemma SpecialTraceValues(e: Event, now: int)
    requires e.TraceCreate?
    ensures TraceCell(e, now, IsExperiment, TraceValue(e, now, IsExperiment))
    ensures TraceCell(e, now, Timestamp, TraceValue(e, now, Timestamp))
    ensures TraceCell(e, now, CreatedAt, TraceValue(e, now, CreatedAt))
    ensures TraceCell(e, now, UpdatedAt, TraceValue(e, now, UpdatedAt))
  {
    hide Truthy, Falsy;
    if IsExperiment in e.body { TruthyIff(e.body[IsExperiment]); }
    TruthyIff(Null);
    NullFalsy();
  }

  lemma TraceValueShows(e: Event, now: int, c: Column)
    requires e.TraceCreate?
    ensures TraceCell(e, now, c, TraceValue(e, now, c))
  {
    SpecialTraceValues(e, now);
    if c != IsExperiment && c != Timestamp && c != CreatedAt && c != UpdatedAt {
      OtherTraceValue(e, now, c);
      TraceColumnsAre(c);
      hide TraceValue;
    }
  }

  lemma OtherTraceValue(e: Event, now: int, c: Column)
    requires e.TraceCreate? && c != IsExperiment && c != Timestamp && c != CreatedAt && c != UpdatedAt
    ensures TraceValue(e, now, c) == if c in TRACE_COLUMNS && c in e.body then e.body[c] else Null
  {
  }

  lemma TraceColumnsAre(c: Column)
    ensures c in TRACE_COLUMNS <==> OfTraceBody(c) || c == CreatedAt || c == UpdatedAt
  {
  }

  lemma NullFalsy()
    ensures Falsy(Null)
  {
  }

  lemma TraceRowShows(e: Event, now: int, c: Column)
    requires e.TraceCreate?
    ensures TraceCell(e, now, c, TraceRow(e, now)[c])
  {
    hide TraceCell, TraceValue;
    TraceValueShows(e, now, c);
  }

  lemma TraceLands(e: Event, now: int, c: Column, row: Row)
    requires e.TraceCreate?
    ensures TraceMerged(e, now, c, row[c], Combine(TraceMerge(e, now), row)[c])
  {
    hide TraceRow, Combine, TraceCell;
    TraceRowShows(e, now, c);
    LandedCell(TraceMerge(e, now), row, c);
    TraceNull(e, now, c);
  }

  lemma TraceNull(e: Event, now: int, c: Column)
    requires e.TraceCreate?
    ensures TraceRow(e, now)[c] == Null && c in e.body && OfTraceBody(c) ==> e.body[c] == Null
    ensures TraceRow(e, now)[UpdatedAt] == Time(now)
    ensures c in TRACE_COLUMNS <==> OfTraceBody(c) || c == CreatedAt || c == UpdatedAt
  {
  }

  lemma StubShows(now: int, c: Column)
    ensures StubCell(now, c, StubRow(now)[c])
  {
  }

  predicate OnlyTrace(events: seq<Event>, e: Event) {
    e in events && e.TraceCreate? &&
    forall f :: f in events && f.TraceCreate? && f.project == e.project && f.id == e.id ==> f == e
  }

  lemma TraceWritten(events: seq<Event>, now: int, e: Event)
    requires OnlyTrace(events, e)
    ensures TraceMerge(e, now) in TraceWrites(events, now)
    ensures forall w :: w in TraceWrites(events, now) && w.key == KeyOf(e) ==> w == TraceMerge(e, now)
  {
    hide TraceRow;
    AreMerges(events, now);
    var merges := TraceMerges(events, now);
    GroupingKeepsRows(merges, TraceMerge(e, now));
    InTraceMergesOf(events, now, TraceMerge(e, now));
    forall w | w in TraceWrites(events, now) && w.key == KeyOf(e) ensures w == TraceMerge(e, now) {
      GroupingKeepsRows(merges, w);
      InTraceMergesOf(events, now, w);
    }
  }

  lemma {:induction false} InTraceMergesOf(events: seq<Event>, now: int, w: Write)
    ensures w in TraceMerges(events, now) <==> exists e :: e in events && e.TraceCreate? && w == TraceMerge(e, now)
  {
    hide TraceMerge;
    if events != [] {
      InTraceMergesOf(events[..|events| - 1], now, w);
      assert events == events[..|events| - 1] + [events[|events| - 1]];
    }
  }

  /** After a batch that holds one trace_create of a trace: the cells of a new row, and of one that
      was there. */
  lemma TraceStored(db: Db, events: seq<Event>, now: int, prices: Option<Prices>, e: Event, c: Column)
    requires ApplyEvents(db, events, now, prices).Ok? && OnlyTrace(events, e)
    ensures var k, before, after := Key(e.project, e.id), db.traces, ApplyEvents(db, events, now, prices).value.traces;
            && k in after
            && (k !in before ==> TraceCell(e, now, c, after[k][c]))
            && (k in before ==> TraceMerged(e, now, c, before[k][c], after[k][c]))
  {
    hide TraceRow, TraceCell, TraceMerged, TraceMerge, Combine, TraceWrites;
    UnpricedSame(db, events, now, prices);
    BatchByTable(db, events, now);
    TraceWritten(events, now, e);
    MergeKey(e, now);
    OneWriter(db.traces, TraceWrites(events, now), TraceMerge(e, now), c);
    if KeyOf(e) in db.traces {
      TraceLands(e, now, c, db.traces[KeyOf(e)]);
    } else {
      TraceRowShows(e, now, c);
    }
  }

  lemma MergeKey(e: Event, now: int)
    requires e.TraceCreate?
    ensures TraceMerge(e, now).key == KeyOf(e) && TraceMerge(e, now).proposed == TraceRow(e, now)
  {
  }

  lemma UnpricedSame(db: Db, events: seq<Event>, now: int, prices: Option<Prices>)
    requires ApplyEvents(db, events, now, prices).Ok?
    ensures ApplyEvents(db, events, now, None).Ok?
    ensures var out, plain := ApplyEvents(db, events, now, prices).value, ApplyEvents(db, events, now, None).value;
            out.traces == plain.traces && out.scores == plain.scores
  {
    hide Written, ResolveAll;
  }

  /** A trace that only observations name: its row stays as it was, or it gets a stub. */
  lemma StubStored(db: Db, events: seq<Event>, now: int, prices: Option<Prices>, e: Event, c: Column)
    requires ApplyEvents(db, events, now, prices).Ok? && e in events && IsObservation(e)
    requires forall f :: f in events && f.TraceCreate? ==> Key(f.project, f.id) != Key(e.project, e.traceId)
    ensures var k, before, after := Key(e.project, e.traceId), db.traces, ApplyEvents(db, events, now, prices).value.traces;
            && k in after
            && if k in before then after[k][c] == before[k][c] else StubCell(now, c, after[k][c])
  {
    hide StubRow, TraceMerge, TraceWrites;
    UnpricedSame(db, events, now, prices);
    BatchByTable(db, events, now);
    var k, ws := Key(e.project, e.traceId), TraceWrites(events, now);
    forall w | w in ws ensures w.key != k { TraceWriteKey(events, now, w); }
    NoWriter(db.traces, ws, k);
    assert k in Referenced(events) - Known(events);
    StubShows(now, c);
  }

  lemma TraceWriteKey(events: seq<Event>, now: int, w: Write)
    requires w in TraceWrites(events, now)
    ensures exists e :: e in events && e.TraceCreate? && w.key == KeyOf(e)
  {
    hide TraceRow;
    AreMerges(events, now);
    GroupingKeepsRows(TraceMerges(events, now), w);
    InTraceMergesOf(events, now, w);
  }

  // --- pricing ----------------------------------------------------------------------------------------------

  predicate ToPrice(row: Row) {
    row[Type] == Text("GENERATION") && row[UsageDetails].Counts? && row[ProvidedCostDetails] == Null && row[StartTime].Time?
  }

  /** Pricing a row, written out: only a generation with usage that the client did not price and
      whose model has a price row then in force changes, and only where at least one kind of its
      usage has a price; it then names that row's model and holds the costs and their total. */
  lemma PricedRow(row: Row, project: string, models: seq<ModelPrice>, regex: Regex)
    ensures var r := Resolved(row, project, models, regex);
            && (forall c :: c != InternalModelId && c != CostDetails && c != TotalCost ==> r[c] == row[c])
            && (!ToPrice(row) ==> r == row)
            && (ToPrice(row) ==>
                  var name := if row[ProvidedModelName].Text? then row[ProvidedModelName].text else "";
                  var price := Match(models, regex, name, project, row[StartTime].at);
                  var usage := row[UsageDetails].counts;
                  match CostOf(usage, price)
                  case None => r == row
                  case Some(cost) =>
                    && price.Some? && r[InternalModelId] == Text(price.value.modelId)
                    && r[CostDetails] == Costs(cost.details) && r[TotalCost] == Amount(cost.total))
  {
    hide Match, CostOf;
    if ToPrice(row) {
      NoPriceNoCost(row[UsageDetails].counts);
    } else {
      assert !(Resolvable(row) && row[StartTime].Time?);
    }
    forall c | c != InternalModelId && c != CostDetails && c != TotalCost
      ensures Resolved(row, project, models, regex)[c] == row[c]
    {
      OnlyPriced(row, project, models, regex, c);
    }
  }

  lemma OnlyPriced(row: Row, project: string, models: seq<ModelPrice>, regex: Regex, c: Column)
    requires c != InternalModelId && c != CostDetails && c != TotalCost
    ensures Resolved(row, project, models, regex)[c] == row[c]
  {
    hide Match, CostOf, Resolvable, PriceFor;
  }

  lemma NoPriceNoCost(usage: seq<(string, int)>)
    ensures CostOf(usage, None) == None
  {
  }

  /** With a price cache, exactly the rows the batch has an event of are priced. */
  lemma TouchedPriced(db: Db, events: seq<Event>, now: int, prices: Prices, k: Key)
    requires ApplyEvents(db, events, now, Some(prices)).Ok?
    requires k in ApplyEvents(db, events, now, None).value.observations
    ensures var plain := ApplyEvents(db, events, now, None).value.observations;
            var out := ApplyEvents(db, events, now, Some(prices)).value.observations;
            && k in out
            && out[k] == if exists e :: e in events && IsObservation(e) && Key(e.project, e.id) == k
                         then Resolved(plain[k], k.project, prices.models, prices.regex) else plain[k]
  {
    hide Written, Resolved;
    if e :| e in events && IsObservation(e) && Key(e.project, e.id) == k {
      assert k in Touched(events);
    }
  }

  // --- which events are accepted -----------------------------------------------------------------------------

  /** The name, with or without its prefix. */
  predicate IsNamed(v: Value, prefix: string, name: string) {
    v == Text(name) || v == Text(prefix + name)
  }

  predicate NamedAmong(v: Value, prefix: string, names: set<string>) {
    exists n :: n in names && IsNamed(v, prefix, n)
  }

  const TYPE_NAMES: set<string> :=
    {"SPAN", "GENERATION", "EVENT", "AGENT", "TOOL", "CHAIN", "RETRIEVER", "EMBEDDING", "GUARDRAIL"}

  const LEVEL_NAMES: set<string> := {"DEBUG", "DEFAULT", "WARNING", "ERROR"}

  /** The database and the row builders take the event: its type, level, start and objects are of
      the kinds they should be, and it ends no earlier than it starts. */
  predicate Acceptable(b: Body) {
    && (PromptVersion in b ==> b[PromptVersion].Whole?)
    && (Type in b ==> NamedAmong(b[Type], "OBSERVATION_TYPE_", TYPE_NAMES))
    && (Level in b ==>
          Falsy(b[Level]) || IsNamed(b[Level], "OBSERVATION_LEVEL_", "UNSPECIFIED") ||
          NamedAmong(b[Level], "OBSERVATION_LEVEL_", LEVEL_NAMES))
    && (UsageDetails in b ==> Falsy(b[UsageDetails]) || b[UsageDetails].Counts?)
    && (CostDetails in b ==> Falsy(b[CostDetails]) || b[CostDetails].Costs?)
    && (StartTime in b ==> b[StartTime].Time?)
    && (StartTime in b && EndTime in b && b[EndTime].Time? ==> b[StartTime].at <= b[EndTime].at)
  }

  lemma EnumNameIs(v: Value, prefix: string, absent: Value, name: string)
    requires prefix != "" && name != "" && prefix[0] != name[0] && name != "UNSPECIFIED" && prefix[0] != 'U'
    ensures EnumName(v, prefix, absent) == Text(name) <==>
            IsNamed(v, prefix, name) ||
            (absent == Text(name) && (!v.Text? || v.text == "" || IsNamed(v, prefix, "UNSPECIFIED")))
  {
    if v.Text? {
      Stripped(v.text, prefix);
      assert (prefix + name)[|prefix|..] == name && (prefix + "UNSPECIFIED")[|prefix|..] == "UNSPECIFIED";
    }
  }

  lemma TypeAcceptedIff(v: Value)
    ensures EnumName(v, "OBSERVATION_TYPE_", Null) in TYPES <==> NamedAmong(v, "OBSERVATION_TYPE_", TYPE_NAMES)
  {
    hide EnumName, IsNamed;
    forall n | n in TYPE_NAMES
      ensures EnumName(v, "OBSERVATION_TYPE_", Null) == Text(n) <==> IsNamed(v, "OBSERVATION_TYPE_", n)
    {
      EnumNameIs(v, "OBSERVATION_TYPE_", Null, n);
    }
    forall t ensures t in TYPES <==> t.Text? && t.text in TYPE_NAMES {}
  }

  lemma LevelAcceptedIff(v: Value)
    requires !Falsy(v) ==> v.Text?
    ensures EnumName(v, "OBSERVATION_LEVEL_", Text("DEFAULT")) in LEVELS <==>
            Falsy(v) || IsNamed(v, "OBSERVATION_LEVEL_", "UNSPECIFIED") || NamedAmong(v, "OBSERVATION_LEVEL_", LEVEL_NAMES)
  {
    hide EnumName, IsNamed;
    var prefix, name := "OBSERVATION_LEVEL_", EnumName(v, "OBSERVATION_LEVEL_", Text("DEFAULT"));
    forall n | n in LEVEL_NAMES
      ensures name == Text(n) <==>
        IsNamed(v, prefix, n) || (n == "DEFAULT" && (!v.Text? || v.text == "" || IsNamed(v, prefix, "UNSPECIFIED")))
    {
      EnumNameIs(v, prefix, Text("DEFAULT"), n);
    }
    assert "DEFAULT" in LEVEL_NAMES;
    forall t ensures t in LEVELS <==> t.Text? && t.text in LEVEL_NAMES {}
  }

  lemma CoercibleIff(b: Body)
    ensures Coercible(b) <==>
              && (PromptVersion in b ==> b[PromptVersion].Whole?)
              && (Type in b ==> Falsy(b[Type]) || b[Type].Text?) && (Level in b ==> Falsy(b[Level]) || b[Level].Text?)
              && (UsageDetails in b ==> Falsy(b[UsageDetails]) || b[UsageDetails].Counts?)
              && (CostDetails in b ==> Falsy(b[CostDetails]) || b[CostDetails].Costs?)
  {
    hide Truthy, Falsy;
    forall v ensures Truthy(v) <==> !Falsy(v) { TruthyIff(v); }
  }

  /** The cells the constraints look at. */
  lemma CheckedCells(e: Event, now: int)
    requires IsObservation(e)
    ensures var b, row := e.body, ObservationRow(e, now);
            && row[TraceId].Text?
            && row[Type] == (if Type in b then EnumName(b[Type], "OBSERVATION_TYPE_", Null) else Text("SPAN"))
            && row[Level] == (if Level in b then EnumName(b[Level], "OBSERVATION_LEVEL_", Text("DEFAULT")) else Text("DEFAULT"))
            && row[EndTime] == (if EndTime in b && b[EndTime].Time? then b[EndTime] else Null)
            && (StartTime in b ==> row[StartTime] == if b[StartTime].Time? then b[StartTime] else Null)
            && (StartTime !in b ==>
                  if row[EndTime] != Null then row[StartTime] == row[EndTime]
                  else row[StartTime] == Time(if e.stamp.Some? then e.stamp.value else now))
  {
    hide EnumName, ObservationRow;
    RowCell(e, now, TraceId);
    RowCell(e, now, Type);
    RowCell(e, now, Level);
    RowCell(e, now, StartTime);
    RowCell(e, now, EndTime);
  }

  lemma RowCheckedIff(e: Event, now: int)
    requires IsObservation(e)
    ensures Coercible(e.body) && ObservationCheck(ObservationRow(e, now)) <==> Acceptable(e.body)
  {
    hide EnumName, ObservationRow, NamedAmong, IsNamed, Falsy, Coercible;
    CheckedCells(e, now);
    CoercibleIff(e.body);
    var b := e.body;
    if Type in b {
      TypeAcceptedIff(b[Type]);
      NamedIsText(b[Type], "OBSERVATION_TYPE_", TYPE_NAMES);
    }
    if Level in b {
      if Falsy(b[Level]) || b[Level].Text? { LevelAcceptedIff(b[Level]); }
      NamedIsText(b[Level], "OBSERVATION_LEVEL_", LEVEL_NAMES);
    }
    assert Text("SPAN") in TYPES && Text("DEFAULT") in LEVELS;
  }

  lemma NamedIsText(v: Value, prefix: string, names: set<string>)
    ensures NamedAmong(v, prefix, names) || IsNamed(v, prefix, "UNSPECIFIED") ==> v.Text?
  {
  }

  /** A lone event of a new observation is accepted exactly if its body is acceptable. */
  lemma ObservationAcceptedIff(db: Db, e: Event, now: int)
    requires IsObservation(e) && Key(e.project, e.id) !in db.observations
    ensures ApplyEvents(db, [e], now, None).Ok? <==> Acceptable(e.body)
  {
    hide ObservationCheck, ObservationRow, Acceptable, Coercible, ExecAll, AddStubs, InsertScores;
    RowCheckedIff(e, now);
    if Coercible(e.body) {
      Convergence.OneCallAccepts(db, Call(e, now));
      Convergence.OneStep(Call(e, now));
      StepKey(e, now);
      FirstAccepted(db.observations, StepOf(e, now), ObservationCheck);
      assert StepOf(e, now).proposed == ObservationRow(e, now);
    } else {
      assert e in [e] && !Buildable(e);
    }
  }

  lemma FirstAccepted(table: Table, w: Write, check: Row -> bool)
    requires w.key !in table
    ensures ExecAll(table, [w], check).Ok? <==> check(w.proposed)
  {
    assert [w][..0] == [];
  }

  /** A lone score is accepted exactly if it hangs on a trace or on a run item and not on both, is
      of a known data type, and has the kind of value that calls for. */
  lemma ScoreAcceptedIff(db: Db, e: Event, now: int)
    requires e.ScoreCreate?
    ensures var s := e.score;
            var categorical := IsNamed(s.dataType, "SCORE_DATA_TYPE_", "CATEGORICAL");
            ApplyEvents(db, [e], now, None).Ok? <==>
              && (s.traceId.Some? <==> s.runItemId.None?)
              && (Falsy(s.dataType) || categorical || IsNamed(s.dataType, "SCORE_DATA_TYPE_", "UNSPECIFIED") ||
                  IsNamed(s.dataType, "SCORE_DATA_TYPE_", "NUMERIC") || IsNamed(s.dataType, "SCORE_DATA_TYPE_", "BOOLEAN"))
              && if categorical then s.stringValue.Some? else s.value.Some?
  {
    hide EnumName, IsNamed, Falsy, Truthy, AddStubs, InsertScores, ScoreCheck, ScoreRow;
    PartsOfOne(e, now);
    OneTraceList(Call(e, now));
    AreMerges([e], now);
    GroupedOne(CreateMerges([e], now));
    assert e in [e] && forall f :: f in [e] ==> f == e;
    assert (exists f :: f in [e] && !Buildable(f)) <==> !Buildable(e);
    NothingElse(db);
    OneScoreIff(db.scores, KeyOf(e), ScoreRow(e, now));
    TruthyIff(e.score.dataType);
    ScoreCheckedIff(e, now);
  }

  lemma NothingElse(db: Db)
    ensures ExecAll(db.traces, [], TraceCheck).Ok? && ExecAll(db.observations, [], ObservationCheck).Ok?
  {
  }

  lemma OneScoreIff(scores: map<Key, Score>, k: Key, row: Score)
    ensures InsertScores(scores, [(k, row)]).Ok? <==> ScoreCheck(row)
  {
    assert [(k, row)][..0] == [];
  }

  lemma ScoreCheckedIff(e: Event, now: int)
    requires e.ScoreCreate?
    ensures var s := e.score;
            var categorical := IsNamed(s.dataType, "SCORE_DATA_TYPE_", "CATEGORICAL");
            (Falsy(s.dataType) || s.dataType.Text?) && ScoreCheck(ScoreRow(e, now)) <==>
              && (s.traceId.Some? <==> s.runItemId.None?)
              && (Falsy(s.dataType) || categorical || IsNamed(s.dataType, "SCORE_DATA_TYPE_", "UNSPECIFIED") ||
                  IsNamed(s.dataType, "SCORE_DATA_TYPE_", "NUMERIC") || IsNamed(s.dataType, "SCORE_DATA_TYPE_", "BOOLEAN"))
              && if categorical then s.stringValue.Some? else s.value.Some?
  {
    hide EnumName, IsNamed, Falsy;
    var v, prefix := e.score.dataType, "SCORE_DATA_TYPE_";
    var kind := EnumName(v, prefix, Text("NUMERIC"));
    KindIsText(v, prefix);
    FalsyText(v);
    EnumNameIs(v, prefix, Text("NUMERIC"), "NUMERIC");
    EnumNameIs(v, prefix, Text("NUMERIC"), "CATEGORICAL");
    EnumNameIs(v, prefix, Text("NUMERIC"), "BOOLEAN");
    NamesDiffer(v, prefix, "CATEGORICAL", "UNSPECIFIED");
    NamesDiffer(v, prefix, "CATEGORICAL", "NUMERIC");
    NamesDiffer(v, prefix, "CATEGORICAL", "BOOLEAN");
    NameIsText(v, prefix);
  }

  lemma KindIsText(v: Value, prefix: string)
    ensures EnumName(v, prefix, Text("NUMERIC")).Text?
  {
  }

  lemma FalsyText(v: Value)
    ensures v.Text? ==> (Falsy(v) <==> v.text == "")
  {
  }

  lemma NameIsText(v: Value, prefix: string)
    requires prefix != ""
    ensures forall n :: n != "" && IsNamed(v, prefix, n) ==> v.Text? && v.text != ""
  {
  }

  lemma NamesDiffer(v: Value, prefix: string, a: string, b: string)
    requires prefix != "" && a != "" && b != "" && a[0] != b[0] && prefix[0] != a[0] && prefix[0] != b[0]
    ensures !(IsNamed(v, prefix, a) && IsNamed(v, prefix, b))
  {
    assert (prefix + a)[|prefix|] == a[0] && (prefix + b)[|prefix|] == b[0];
  }
}
