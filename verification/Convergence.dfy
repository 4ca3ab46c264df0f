/** One observation's create and updates, arriving in any order. */
module Convergence {
  import opened Tables
  import opened Events
  import opened Pricing
  import opened Ingest
  import opened SingleCalls
  import opened BatchRefinement

  /** The columns an event sends; a create always sends type and start_time. */
  function SentBy(c: Call): set<Column>
    requires IsObservation(c.event)
  {
    ObservationFields(c.event.body).Keys + if c.event.ObservationCreate? then {Type, StartTime} else {}
  }

  function RowOf(c: Call): Row
    requires IsObservation(c.event)
  {
    ObservationRow(c.event, c.now)
  }

  function WriteOf(c: Call): Write
    requires IsObservation(c.event)
  {
    StepOf(c.event, c.now)
  }

  /** The values an event sends fit their columns. */
  predicate WellTyped(c: Call)
    requires IsObservation(c.event)
  {
    && Coercible(c.event.body) && RowOf(c)[Type] in TYPES && RowOf(c)[Level] in LEVELS && RowOf(c)[StartTime].Time?
  }

  /** One event delivered twice, with the same values sent: the clock may have moved on. */
  ghost predicate Redelivered(c: Call, d: Call)
    requires IsObservation(c.event) && IsObservation(d.event)
  {
    c.event == d.event && forall col :: col in SentBy(c) ==> RowOf(c)[col] == RowOf(d)[col]
  }

  /** The calls of one observation: a create, any number of updates, and redeliveries of them;
      no two different events send one column. */
  ghost predicate Lifecycle(calls: set<Call>, k: Key, traceId: string) {
    && (forall c :: c in calls ==>
          IsObservation(c.event) && KeyOf(c.event) == k && c.event.traceId == traceId && WellTyped(c))
    && (forall c, d | c in calls && d in calls :: Redelivered(c, d) || SentBy(c) !! SentBy(d))
    && exists c :: c in calls && c.event.ObservationCreate?
  }

  /** `order` delivers the calls in some order, each at least once. */
  ghost predicate Delivers(order: seq<Call>, calls: set<Call>) {
    forall c :: c in order <==> c in calls
  }

  predicate EndsAt(c: Call, e: int)
    requires IsObservation(c.event)
  {
    EndTime in SentBy(c) && RowOf(c)[EndTime] == Time(e)
  }

  /** The end that is sent comes after the start, and, when an update sends it, every update
      that does not was stamped no later than it. */
  ghost predicate InTime(calls: set<Call>)
    requires forall c :: c in calls ==> IsObservation(c.event) && RowOf(c)[StartTime].Time?
  {
    forall c, d, e | c in calls && d in calls && EndsAt(c, e) ::
      && (d.event.ObservationCreate? ==> RowOf(d)[StartTime].at <= e)
      && (c.event.ObservationUpdate? && d.event.ObservationUpdate? && EndTime !in SentBy(d) ==>
            Stamp(d.event, d.now).at <= e)
  }

  // --- facts about one event ------------------------------------------------------------------

  lemma RowFacts(c: Call)
    requires IsObservation(c.event)
    ensures RowOf(c)[TraceId] == Text(c.event.traceId)
    ensures RowOf(c)[EndTime].Null? || RowOf(c)[EndTime].Time?
    ensures EndTime !in SentBy(c) ==> RowOf(c)[EndTime] == Null
    ensures StartTime !in SentBy(c) ==>
              RowOf(c)[StartTime] == if RowOf(c)[EndTime] != Null then RowOf(c)[EndTime] else Stamp(c.event, c.now)
  {
  }

  lemma WriteFacts(c: Call, col: Column)
    requires IsObservation(c.event) && col != UpdatedAt && col != CreatedAt
    ensures WriteOf(c).key == KeyOf(c.event) && WriteOf(c).proposed == RowOf(c) && !WriteOf(c).Fill?
    ensures Overwrites(WriteOf(c), col) ==> col in SentBy(c) && (c.event.ObservationCreate? ==> RowOf(c)[col] != Null)
    ensures col in SentBy(c) && (c.event.ObservationUpdate? || RowOf(c)[col] != Null) ==> Overwrites(WriteOf(c), col)
  {
  }

  lemma Unsent(c: Call, col: Column)
    requires IsObservation(c.event) && col !in SentBy(c)
    requires col != Type && col != StartTime && col != UpdatedAt && col != CreatedAt
    ensures RowOf(c)[col] == UnwrittenValue(c.event.traceId, c.now, col)
  {
    WriteFacts(c, col);
    UnwrittenInRow(c.event, c.now, col);
  }

  lemma NotOverwritten(c: Call, col: Column)
    requires IsObservation(c.event) && !Overwrites(WriteOf(c), col)
    requires col != Type && col != StartTime && col != UpdatedAt && col != CreatedAt
    ensures RowOf(c)[col] == UnwrittenValue(c.event.traceId, 0, col)
  {
    UnwrittenInRow(c.event, c.now, col);
  }

  /** Two calls that send one column are deliveries of one event. */
  lemma SameColumn(calls: set<Call>, k: Key, traceId: string, c: Call, d: Call, col: Column)
    requires Lifecycle(calls, k, traceId) && c in calls && d in calls && col in SentBy(c) && col in SentBy(d)
    ensures c.event == d.event && RowOf(c)[col] == RowOf(d)[col] && SentBy(c) == SentBy(d)
  {
    hide RowOf, ObservationFields, WellTyped;
    assert !(SentBy(c) !! SentBy(d));
    assert Redelivered(c, d);
  }

  lemma CreateSends(c: Call)
    requires c.event.ObservationCreate?
    ensures Type in SentBy(c) && StartTime in SentBy(c)
  {
    hide ObservationFields;
  }

  /** No update sends what the create sends. */
  lemma OnlyCreateStarts(calls: set<Call>, k: Key, traceId: string, c: Call)
    requires Lifecycle(calls, k, traceId) && c in calls
    ensures StartTime in SentBy(c) <==> c.event.ObservationCreate?
    ensures Type in SentBy(c) <==> c.event.ObservationCreate?
  {
    hide RowOf, SentBy, WellTyped, Redelivered;
    var create :| create in calls && create.event.ObservationCreate?;
    CreateSends(create);
    if c.event.ObservationCreate? { CreateSends(c); }
    if StartTime in SentBy(c) { SameColumn(calls, k, traceId, c, create, StartTime); }
    if Type in SentBy(c) { SameColumn(calls, k, traceId, c, create, Type); }
  }

  // --- the calls as a list of writes -------------------------------------------------------------

  lemma OneStep(c: Call)
    requires IsObservation(c.event)
    ensures ObservationStep(c) == [WriteOf(c)]
  {
  }

  lemma {:induction false} StepsOfCalls(calls: seq<Call>)
    requires forall c :: c in calls ==> IsObservation(c.event)
    ensures |ObservationSteps(calls)| == |calls|
    ensures forall i :: 0 <= i < |calls| ==> ObservationSteps(calls)[i] == WriteOf(calls[i])
  {
    hide WriteOf, ObservationStep;
    if calls != [] {
      var init, last := calls[..|calls| - 1], calls[|calls| - 1];
      StepsOfCalls(init);
      OneStep(last);
      var steps, w := ObservationSteps(init), WriteOf(last);
      assert ObservationSteps(calls) == steps + [w];
      forall i | 0 <= i < |calls| ensures ObservationSteps(calls)[i] == WriteOf(calls[i]) {
        if i < |init| {
          assert init[i] == calls[i];
        }
      }
    }
  }

  lemma {:induction false} StepsOfPrefix(calls: seq<Call>, i: nat)
    requires i <= |calls| && forall c :: c in calls ==> IsObservation(c.event)
    ensures i <= |ObservationSteps(calls)| && ObservationSteps(calls)[..i] == ObservationSteps(calls[..i])
  {
    hide WriteOf, ObservationStep;
    StepsOfCalls(calls);
    if i == |calls| {
      assert calls[..i] == calls;
    } else {
      var init, last := calls[..|calls| - 1], calls[|calls| - 1];
      StepsOfPrefix(init, i);
      assert calls[..i] == init[..i];
      OneStep(last);
      assert ObservationSteps(calls)[..i] == ObservationSteps(init)[..i];
    }
  }

  lemma CallBehind(calls: seq<Call>, w: Write) returns (c: Call)
    requires w in ObservationSteps(calls) && forall c :: c in calls ==> IsObservation(c.event)
    ensures c in calls && w == WriteOf(c)
  {
    hide WriteOf, RowOf, SentBy;
    StepsOfCalls(calls);
    var i :| 0 <= i < |ObservationSteps(calls)| && ObservationSteps(calls)[i] == w;
    c := calls[i];
  }

  lemma WriteAmongSteps(calls: seq<Call>, c: Call)
    requires c in calls && forall c :: c in calls ==> IsObservation(c.event)
    ensures WriteOf(c) in ObservationSteps(calls)
  {
    hide WriteOf, RowOf, SentBy;
    StepsOfCalls(calls);
    var i :| 0 <= i < |calls| && calls[i] == c;
    assert ObservationSteps(calls)[i] == WriteOf(c);
  }

  /** One observation event writes no trace row and no score that could be refused. */
  lemma OneObservation(c: Call)
    requires IsObservation(c.event)
    ensures TraceWrites([c.event], c.now) == [] && ScoreRows([c.event], c.now) == []
    ensures ObservationWrites([c.event], c.now) == ObservationStep(c)
  {
    PartsOfOne(c.event, c.now);
    AreMerges([c.event], c.now);
    GroupedOne(TraceMerges([c.event], c.now));
    GroupedOne(CreateMerges([c.event], c.now));
  }

  lemma NothingElse(db: Db)
    ensures ExecAll(db.traces, [], TraceCheck).Ok? && InsertScores(db.scores, []).Ok?
  {
  }

  /** Single calls with observation events succeed as far as the observations table lets them. */
  lemma OneCallAccepts(db: Db, c: Call)
    requires IsObservation(c.event) && Coercible(c.event.body)
    ensures ApplyEvents(db, [c.event], c.now, None).Ok? <==>
            ExecAll(db.observations, ObservationStep(c), ObservationCheck).Ok?
  {
    hide ExecAll, ObservationStep, Truthy, AddStubs, TraceWrites, ObservationWrites, ScoreRows;
    OneObservation(c);
    NothingElse(db);
    assert forall e :: e in [c.event] ==> e == c.event;
  }

  lemma {:induction false} FoldAccepts(db: Db, calls: seq<Call>)
    requires forall c :: c in calls ==> IsObservation(c.event) && Coercible(c.event.body)
    ensures Fold(db, calls).Ok? <==> ExecAll(db.observations, ObservationSteps(calls), ObservationCheck).Ok?
  {
    if calls != [] {
      var init, last := calls[..|calls| - 1], calls[|calls| - 1];
      FoldAccepts(db, init);
      ExecAllConcat(db.observations, ObservationSteps(init), ObservationStep(last), ObservationCheck);
      if Fold(db, init).Ok? {
        FoldByTable(db, init);
        ExecAllApplies(db.observations, ObservationSteps(init), ObservationCheck);
        OneCallAccepts(Fold(db, init).value, last);
      }
    }
  }

  // --- when every order is accepted -----------------------------------------------------------------

  /** What an event sends null in a create changes nothing. */
  predicate Sets(c: Call, col: Column)
    requires IsObservation(c.event)
  {
    col in SentBy(c) && (c.event.ObservationCreate? ==> RowOf(c)[col] != Null)
  }

  lemma SetsIffOverwrites(c: Call, col: Column)
    requires IsObservation(c.event) && col != CreatedAt && col != UpdatedAt
    ensures Sets(c, col) <==> Overwrites(WriteOf(c), col)
  {
    hide WriteOf, RowOf, SentBy, Overwrites;
    WriteFacts(c, col);
  }

  /** Calls on observation `k`; they may send what they like. */
  ghost predicate OfOne(calls: set<Call>, k: Key) {
    forall c :: c in calls ==> IsObservation(c.event) && KeyOf(c.event) == k && WellTyped(c)
  }

  /** Some order stores the end of `c` with the start of `d`: `c` keeps the start that `d`
      brought, or `d` then brings a start and no end. */
  predicate Meets(c: Call, d: Call)
    requires IsObservation(c.event) && IsObservation(d.event)
  {
    Sets(c, EndTime) && (!Sets(c, StartTime) || (Sets(d, StartTime) && !Sets(d, EndTime)))
  }

  predicate StartsBeforeEnd(d: Call, c: Call)
    requires IsObservation(c.event) && IsObservation(d.event) && RowOf(d)[StartTime].Time?
  {
    RowOf(c)[EndTime].Time? ==> RowOf(d)[StartTime].at <= RowOf(c)[EndTime].at
  }

  /** No end is before a start it can meet, its own included. */
  ghost predicate Timely(calls: set<Call>)
    requires forall c :: c in calls ==> IsObservation(c.event) && RowOf(c)[StartTime].Time?
  {
    forall c, d | c in calls && d in calls && (c == d || Meets(c, d)) :: StartsBeforeEnd(d, c)
  }

  ghost predicate FromCall(row: Row, calls: set<Call>, col: Column)
    requires forall c :: c in calls ==> IsObservation(c.event)
  {
    exists c :: c in calls && row[col] == RowOf(c)[col]
  }

  /** The row has the start of a call, and no end or the end of one that meets it. */
  ghost predicate PairedBy(row: Row, calls: set<Call>, d: Call)
    requires forall c :: c in calls ==> IsObservation(c.event)
  {
    && d in calls && row[StartTime] == RowOf(d)[StartTime]
    && (row[EndTime] == Null ||
        exists c :: c in calls && row[EndTime] == RowOf(c)[EndTime] && (c == d || Meets(c, d)))
  }

  ghost predicate FromCalls(row: Row, calls: set<Call>)
    requires forall c :: c in calls ==> IsObservation(c.event)
  {
    && FromCall(row, calls, TraceId) && FromCall(row, calls, Type) && FromCall(row, calls, Level)
    && FromCall(row, calls, EndTime) && exists d :: PairedBy(row, calls, d)
  }

  lemma FirstFrom(calls: set<Call>, k: Key, x: Call)
    requires OfOne(calls, k) && x in calls
    ensures FromCalls(RowOf(x), calls)
  {
    hide RowOf, SentBy, Meets, WellTyped;
    assert PairedBy(RowOf(x), calls, x);
  }

  lemma EndIsSet(c: Call)
    requires IsObservation(c.event) && WellTyped(c)
    ensures RowOf(c)[EndTime] != Null ==> Sets(c, EndTime)
    ensures RowOf(c)[EndTime] == Null || RowOf(c)[EndTime].Time?
  {
    hide RowOf, SentBy;
    RowFacts(c);
  }

  lemma CombinedCell(w: Write, row: Row, col: Column)
    ensures Combine(w, row)[col] == if Overwrites(w, col) then w.proposed[col] else row[col]
  {
  }

  /** A cell after the write of `x`. */
  lemma CellCombined(calls: set<Call>, k: Key, row: Row, x: Call, col: Column)
    requires OfOne(calls, k) && x in calls && col != CreatedAt && col != UpdatedAt
    ensures Combine(WriteOf(x), row)[col] == if Sets(x, col) then RowOf(x)[col] else row[col]
    ensures FromCall(row, calls, col) ==> FromCall(Combine(WriteOf(x), row), calls, col)
  {
    hide RowOf, SentBy, WriteOf, Overwrites, Sets, WellTyped;
    SetsIffOverwrites(x, col);
    WriteFacts(x, col);
    CombinedCell(WriteOf(x), row, col);
  }

  lemma CombinedPaired(calls: set<Call>, k: Key, row: Row, x: Call, d: Call) returns (e: Call)
    requires OfOne(calls, k) && x in calls && PairedBy(row, calls, d)
    ensures PairedBy(Combine(WriteOf(x), row), calls, e)
  {
    hide RowOf, SentBy, WriteOf, Overwrites, Sets, WellTyped, Combine;
    CellCombined(calls, k, row, x, StartTime);
    CellCombined(calls, k, row, x, EndTime);
    EndIsSet(x);
    e := if Sets(x, StartTime) then x else d;
    if row[EndTime] != Null && !Sets(x, EndTime) {
      var c :| c in calls && row[EndTime] == RowOf(c)[EndTime] && (c == d || Meets(c, d));
      EndIsSet(c);
      assert c == e || Meets(c, e);
    }
  }

  lemma CombinedFrom(calls: set<Call>, k: Key, row: Row, x: Call)
    requires OfOne(calls, k) && x in calls && FromCalls(row, calls)
    ensures FromCalls(Combine(WriteOf(x), row), calls)
  {
    hide RowOf, SentBy, WriteOf, Overwrites, Sets, WellTyped, Combine, PairedBy, FromCall;
    CellCombined(calls, k, row, x, TraceId);
    CellCombined(calls, k, row, x, Type);
    CellCombined(calls, k, row, x, Level);
    CellCombined(calls, k, row, x, EndTime);
    var d :| PairedBy(row, calls, d);
    var e := CombinedPaired(calls, k, row, x, d);
  }

  lemma FromPasses(calls: set<Call>, k: Key, row: Row)
    requires OfOne(calls, k) && Timely(calls) && FromCalls(row, calls)
    ensures ObservationCheck(row)
  {
    hide RowOf, SentBy, Meets;
    forall c | c in calls ensures RowOf(c)[TraceId].Text? { RowFacts(c); }
    forall c | c in calls ensures RowOf(c)[EndTime] == Null || RowOf(c)[EndTime].Time? { EndIsSet(c); }
    var d :| PairedBy(row, calls, d);
    if row[EndTime] != Null {
      var c :| c in calls && row[EndTime] == RowOf(c)[EndTime] && (c == d || Meets(c, d));
      assert StartsBeforeEnd(d, c);
    }
  }

  lemma ExecOneMore(table: Table, ws: seq<Write>, w: Write, check: Row -> bool)
    requires ExecAll(table, ws, check).Ok? && check(w.proposed)
    requires w.key in ExecAll(table, ws, check).value ==> check(Combine(w, ExecAll(table, ws, check).value[w.key]))
    ensures var r, before := ExecAll(table, ws + [w], check), ExecAll(table, ws, check).value;
            && r.Ok? && w.key in r.value
            && r.value[w.key] == if w.key in before then Combine(w, before[w.key]) else w.proposed
  {
    hide Combine;
    assert (ws + [w])[..|ws|] == ws;
  }

  lemma StepsSnoc(init: seq<Call>, x: Call)
    requires IsObservation(x.event)
    ensures ObservationSteps(init + [x]) == ObservationSteps(init) + [WriteOf(x)]
  {
    hide WriteOf, ObservationStep;
    OneStep(x);
    assert (init + [x])[..|init|] == init;
  }

  /** However far an order has got, the row stored is one the calls can make, and passes. */
  lemma {:induction false} TimelyExec(table: Table, calls: set<Call>, k: Key, done: seq<Call>)
    requires OfOne(calls, k) && Timely(calls) && k !in table && forall c :: c in done ==> c in calls
    ensures var r := ExecAll(table, ObservationSteps(done), ObservationCheck);
            r.Ok? && if done == [] then r.value == table else k in r.value && FromCalls(r.value[k], calls)
  {
    hide RowOf, SentBy, WriteOf, Timely, FromCalls, ObservationCheck, Combine, ObservationSteps, ExecAll;
    if done == [] {
      NothingDone(table);
    } else {
      var init, x := done[..|done| - 1], done[|done| - 1];
      assert done == init + [x] && x in done;
      TimelyExec(table, calls, k, init);
      StepsSnoc(init, x);
      WriteFacts(x, Name);
      FirstFrom(calls, k, x);
      FromPasses(calls, k, RowOf(x));
      if init != [] {
        var row := ExecAll(table, ObservationSteps(init), ObservationCheck).value[k];
        CombinedFrom(calls, k, row, x);
        FromPasses(calls, k, Combine(WriteOf(x), row));
      }
      ExecOneMore(table, ObservationSteps(init), WriteOf(x), ObservationCheck);
    }
  }

  lemma NothingDone(table: Table)
    ensures ExecAll(table, ObservationSteps([]), ObservationCheck) == Ok(table)
  {
  }

  lemma TimelyAccepted(db: Db, calls: set<Call>, k: Key, order: seq<Call>)
    requires OfOne(calls, k) && Timely(calls) && k !in db.observations && forall c :: c in order ==> c in calls
    ensures Fold(db, order).Ok?
  {
    hide RowOf, SentBy, Timely, ObservationCheck, ExecAll, ObservationSteps, Fold;
    TimelyExec(db.observations, calls, k, order);
    FoldAccepts(db, order);
  }

  lemma BringToFront(calls: seq<Call>, c: Call) returns (rest: seq<Call>)
    requires c in calls
    ensures multiset([c] + rest) == multiset(calls)
  {
    var i :| 0 <= i < |calls| && calls[i] == c;
    rest := calls[..i] + calls[i + 1..];
    assert calls == calls[..i] + [c] + calls[i + 1..];
  }

  ghost predicate AcceptedInEveryOrder(db: Db, calls: multiset<Call>) {
    forall order :: multiset(order) == calls ==> Fold(db, order).Ok?
  }

  ghost predicate AcceptedHoweverDelivered(db: Db, calls: set<Call>) {
    forall order :: Delivers(order, calls) ==> Fold(db, order).Ok?
  }

  function Set(calls: seq<Call>): set<Call> {
    set c | c in calls
  }

  lemma SameDelivered(order: seq<Call>, calls: seq<Call>)
    requires multiset(order) == multiset(calls)
    ensures Delivers(order, Set(calls))
  {
    assert forall c :: c in order <==> c in multiset(order);
    assert forall c :: c in calls <==> c in multiset(calls);
  }

  /** An order that starts with `d` and then `c`. */
  lemma TwoFirst(calls: seq<Call>, d: Call, c: Call) returns (order: seq<Call>)
    requires d in calls && c in calls && c != d
    ensures multiset(order) == multiset(calls) && |order| >= 2 && order[0] == d && order[1] == c
  {
    var rest := BringToFront(calls, d);
    assert c in multiset([d] + rest);
    assert c in rest;
    var more := BringToFront(rest, c);
    order := [d] + ([c] + more);
    assert multiset(order) == multiset([d]) + multiset([c] + more);
    assert multiset([d] + rest) == multiset([d]) + multiset(rest);
  }

  /** The row stored after the first `n` calls of an accepted order meets the constraints. */
  lemma AcceptedRowPasses(table: Table, k: Key, order: seq<Call>, n: nat)
    requires forall c :: c in order ==> IsObservation(c.event) && KeyOf(c.event) == k
    requires ExecAll(table, ObservationSteps(order), ObservationCheck).Ok? && 0 < n <= |order|
    ensures k in ApplyAll(table, ObservationSteps(order[..n]))
    ensures ObservationCheck(ApplyAll(table, ObservationSteps(order[..n]))[k])
  {
    hide WriteOf, RowOf, SentBy, ObservationSteps, ExecAll, KeyOf, ObservationCheck;
    var ws := ObservationSteps(order);
    StepsOfCalls(order);
    StepsOfPrefix(order, n);
    forall w | w in ws ensures !w.Fill? && w.key == k {
      var c := CallBehind(order, w);
      WriteFacts(c, Name);
    }
    AcceptedIffChecked(table, ws, ObservationCheck);
    assert ws[n - 1] in ws;
    assert CheckedAt(table, ws, ObservationCheck, n - 1);
  }

  lemma StepsOfTwo(d: Call, c: Call)
    requires IsObservation(d.event) && IsObservation(c.event)
    ensures ObservationSteps([d, c]) == [WriteOf(d), WriteOf(c)]
  {
    hide WriteOf, RowOf, SentBy;
    StepsOfCalls([d, c]);
  }

  /** The row that two calls store, `d` first. */
  lemma TwoStored(table: Table, k: Key, order: seq<Call>, d: Call, c: Call)
    requires forall c :: c in order ==> IsObservation(c.event) && KeyOf(c.event) == k
    requires k !in table && ExecAll(table, ObservationSteps(order), ObservationCheck).Ok?
    requires |order| >= 2 && order[0] == d && order[1] == c
    ensures ObservationCheck(Combine(WriteOf(c), RowOf(d)))
  {
    hide RowOf, SentBy, WriteOf, Combine, ObservationCheck;
    assert order[..2] == [d, c];
    AcceptedRowPasses(table, k, order, 2);
    StepsOfTwo(d, c);
    WriteFacts(c, Name);
    WriteFacts(d, Name);
    LandsSecond(table, WriteOf(d), WriteOf(c), k);
  }

  lemma LandsSecond(table: Table, v: Write, w: Write, k: Key)
    requires v.key == k && w.key == k && k !in table
    ensures k in ApplyAll(table, [v, w]) && ApplyAll(table, [v, w])[k] == Combine(w, v.proposed)
  {
    assert [v, w][..1] == [v] && [v][..0] == [];
    assert ApplyAll(table, [v]) == table[k := v.proposed];
  }

  /** An order in which the end of `c` meets the start of `d` is refused. */
  lemma MeetingRefused(db: Db, calls: seq<Call>, k: Key, c: Call, d: Call) returns (order: seq<Call>)
    requires OfOne(Set(calls), k) && k !in db.observations && c in calls && d in calls && c != d
    requires IsObservation(c.event) && IsObservation(d.event) && RowOf(d)[StartTime].Time?
    requires Meets(c, d) && !StartsBeforeEnd(d, c)
    ensures multiset(order) == multiset(calls) && !Fold(db, order).Ok?
  {
    hide RowOf, SentBy, WriteOf, Combine, Sets, Fold, ExecAll, ObservationSteps;
    var first, second := if Sets(c, StartTime) then c else d, if Sets(c, StartTime) then d else c;
    order := TwoFirst(calls, first, second);
    SameDelivered(order, calls);
    FoldAccepts(db, order);
    if Fold(db, order).Ok? {
      TwoStored(db.observations, k, order, first, second);
      CellCombined(Set(calls), k, RowOf(first), second, StartTime);
      CellCombined(Set(calls), k, RowOf(first), second, EndTime);
      assert false;
    }
  }

  lemma UntimelyRefused(db: Db, calls: seq<Call>, k: Key) returns (order: seq<Call>)
    requires OfOne(Set(calls), k) && k !in db.observations && !Timely(Set(calls))
    ensures multiset(order) == multiset(calls) && !Fold(db, order).Ok?
  {
    hide RowOf, SentBy, WriteOf, Meets, Fold, ExecAll, ObservationSteps;
    var all := Set(calls);
    var c, d :| c in all && d in all && (c == d || Meets(c, d)) && !StartsBeforeEnd(d, c);
    if c == d {
      order := calls;
      FoldAccepts(db, calls);
      if Fold(db, calls).Ok? {
        WriteAmongSteps(calls, c);
        ProposedRowsPass(db.observations, ObservationSteps(calls), ObservationCheck, WriteOf(c));
        WriteFacts(c, Name);
        assert false;
      }
    } else {
      order := MeetingRefused(db, calls, k, c, d);
    }
  }

  /** The exact condition, whatever columns the calls share: creates and updates of one
      observation are accepted in every order, and also when some are delivered again, if and
      only if no end is before a start it can meet. */
  lemma AcceptedInEveryOrderIffTimely(db: Db, calls: seq<Call>, k: Key)
    requires OfOne(Set(calls), k) && k !in db.observations
    ensures AcceptedInEveryOrder(db, multiset(calls)) <==> Timely(Set(calls))
    ensures AcceptedHoweverDelivered(db, Set(calls)) <==> Timely(Set(calls))
  {
    hide RowOf, SentBy, Timely, Fold;
    if Timely(Set(calls)) {
      forall order | Delivers(order, Set(calls)) ensures Fold(db, order).Ok? {
        TimelyAccepted(db, Set(calls), k, order);
      }
      forall order | multiset(order) == multiset(calls) ensures Fold(db, order).Ok? {
        SameDelivered(order, calls);
      }
    } else {
      var order := UntimelyRefused(db, calls, k);
      SameDelivered(order, calls);
    }
  }

  // --- when no two events send one column ------------------------------------------------------------

  lemma LifecycleSets(calls: set<Call>, k: Key, traceId: string, c: Call)
    requires Lifecycle(calls, k, traceId) && c in calls
    ensures Sets(c, StartTime) <==> c.event.ObservationCreate?
    ensures Sets(c, EndTime) && c.event.ObservationCreate? ==> EndTime in SentBy(c)
    ensures EndTime in SentBy(c) && RowOf(c)[EndTime] != Null ==> Sets(c, EndTime)
    ensures Sets(c, EndTime) ==> EndTime in SentBy(c)
  {
    hide RowOf, SentBy;
    OnlyCreateStarts(calls, k, traceId, c);
    TypedNotNull(c);
  }

  /** A start that an end can meet is the create's, or the stamp of an update without an end, or
      the end itself, redelivered. */
  lemma InTimeMeets(calls: set<Call>, k: Key, traceId: string, c: Call, d: Call)
    requires Lifecycle(calls, k, traceId) && InTime(calls) && c in calls && d in calls && (c == d || Meets(c, d))
    ensures StartsBeforeEnd(d, c)
  {
    hide RowOf, SentBy, Sets, Redelivered;
    RowFacts(c);
    RowFacts(d);
    LifecycleSets(calls, k, traceId, c);
    LifecycleSets(calls, k, traceId, d);
    OnlyCreateStarts(calls, k, traceId, d);
    if RowOf(c)[EndTime].Time? {
      assert EndsAt(c, RowOf(c)[EndTime].at);
      if EndTime in SentBy(d) { SameColumn(calls, k, traceId, c, d, EndTime); }
    }
  }

  lemma TimelyInTime(calls: set<Call>, k: Key, traceId: string, c: Call, d: Call, e: int)
    requires Lifecycle(calls, k, traceId) && Timely(calls) && c in calls && d in calls && EndsAt(c, e)
    ensures d.event.ObservationCreate? ==> RowOf(d)[StartTime].at <= e
    ensures c.event.ObservationUpdate? && d.event.ObservationUpdate? && EndTime !in SentBy(d) ==> Stamp(d.event, d.now).at <= e
  {
    hide RowOf, SentBy, Sets, Redelivered;
    RowFacts(d);
    LifecycleSets(calls, k, traceId, c);
    OnlyCreateStarts(calls, k, traceId, d);
    if c.event.ObservationUpdate? {
      assert Meets(c, d) && StartsBeforeEnd(d, c);
    } else if d.event.ObservationCreate? {
      CreateSends(c);
      CreateSends(d);
      SameColumn(calls, k, traceId, c, d, StartTime);
      assert StartsBeforeEnd(c, c);
    }
  }

  lemma TimelyIffInTime(calls: set<Call>, k: Key, traceId: string)
    requires Lifecycle(calls, k, traceId)
    ensures OfOne(calls, k) && (Timely(calls) <==> InTime(calls))
  {
    hide RowOf, SentBy, Meets, EndsAt, StartsBeforeEnd, Redelivered;
    if InTime(calls) {
      forall c, d | c in calls && d in calls && (c == d || Meets(c, d)) ensures StartsBeforeEnd(d, c) {
        InTimeMeets(calls, k, traceId, c, d);
      }
    }
    if Timely(calls) {
      forall c, d, e | c in calls && d in calls && EndsAt(c, e)
        ensures d.event.ObservationCreate? ==> RowOf(d)[StartTime].at <= e
        ensures c.event.ObservationUpdate? && d.event.ObservationUpdate? && EndTime !in SentBy(d) ==> Stamp(d.event, d.now).at <= e
      {
        TimelyInTime(calls, k, traceId, c, d, e);
      }
    }
  }

  /** If the end is in time, every order of the calls is accepted at every step. */
  lemma InTimeAccepted(db: Db, calls: set<Call>, k: Key, traceId: string, order: seq<Call>)
    requires Lifecycle(calls, k, traceId) && InTime(calls) && k !in db.observations
    requires Delivers(order, calls)
    ensures Fold(db, order).Ok?
  {
    hide RowOf, SentBy, InTime, Timely, Fold;
    TimelyIffInTime(calls, k, traceId);
    TimelyAccepted(db, calls, k, order);
  }

  /** For a create and updates that share no column the condition is that the end is in time. */
  lemma AcceptedInEveryOrderIffInTime(db: Db, calls: seq<Call>, k: Key, traceId: string)
    requires Lifecycle(Set(calls), k, traceId) && k !in db.observations
    ensures AcceptedInEveryOrder(db, multiset(calls)) <==> InTime(Set(calls))
    ensures AcceptedHoweverDelivered(db, Set(calls)) <==> InTime(Set(calls))
  {
    hide RowOf, SentBy, InTime, Timely, Fold;
    TimelyIffInTime(Set(calls), k, traceId);
    AcceptedInEveryOrderIffTimely(db, calls, k);
  }

  // --- the row all orders end in ---------------------------------------------------------------------

  /** A column some event sends holds what that event sent; any other, what an insert puts there. */
  ghost predicate Settled(row: Row, calls: set<Call>, traceId: string)
    requires forall c :: c in calls ==> IsObservation(c.event)
  {
    && (forall c, col | c in calls && col in SentBy(c) :: row[col] == RowOf(c)[col])
    && (forall col | col != CreatedAt && col != UpdatedAt && !Sent(calls, col) :: row[col] == UnwrittenValue(traceId, 0, col))
  }

  ghost predicate Sent(calls: set<Call>, col: Column)
    requires forall c :: c in calls ==> IsObservation(c.event)
  {
    exists c :: c in calls && col in SentBy(c)
  }

  lemma SentIsOrdinary(c: Call)
    requires IsObservation(c.event)
    ensures UpdatedAt !in SentBy(c) && CreatedAt !in SentBy(c) && TraceId !in SentBy(c)
  {
  }

  /** A column overwritten by one of the calls done so far holds that call's value. */
  lemma WrittenCell(calls: set<Call>, k: Key, traceId: string, table: Table, done: seq<Call>, c: Call, col: Column)
    requires Lifecycle(calls, k, traceId) && k !in table && c in done && col != UpdatedAt && col != CreatedAt
    requires forall d :: d in done ==> d in calls
    requires Overwrites(WriteOf(c), col)
    ensures k in ApplyAll(table, ObservationSteps(done)) && ApplyAll(table, ObservationSteps(done))[k][col] == RowOf(c)[col]
  {
    hide WriteOf, RowOf, SentBy, Redelivered, WellTyped;
    var ws := ObservationSteps(done);
    WriteFacts(c, col);
    WriteAmongSteps(done, c);
    WrittenBySome(ws, WriteOf(c), col);
    CellAfter(table, ws, k);
    FirstProposedFrom(ws, k);
    var w := CellProposed(table, ws, k, col);
    var d := CallBehind(done, w);
    WriteFacts(d, col);
    SameColumn(calls, k, traceId, c, d, col);
  }

  /** A column that is sent null by the create, or not at all, holds what the insert put there. */
  lemma UnwrittenCell(calls: set<Call>, k: Key, traceId: string, table: Table, done: seq<Call>, col: Column)
    requires Lifecycle(calls, k, traceId) && k !in table && done != [] && Delivers(done, calls)
    requires col != UpdatedAt && col != CreatedAt
    requires forall c :: c in calls ==> !Overwrites(WriteOf(c), col)
    ensures k in ApplyAll(table, ObservationSteps(done))
    ensures ApplyAll(table, ObservationSteps(done))[k][col] == UnwrittenValue(traceId, 0, col)
  {
    hide WriteOf, RowOf, SentBy;
    var ws := ObservationSteps(done);
    assert done[0] in done;
    WriteAmongSteps(done, done[0]);
    WriteFacts(done[0], Name);
    CellAfter(table, ws, k);
    FirstProposedFrom(ws, k);
    StartsAndTypesWritten(calls, k, traceId, col);
    var w := CellProposed(table, ws, k, col);
    var c := CallBehind(done, w);
    WriteFacts(c, Name);
    NotOverwritten(c, col);
  }

  lemma CreateOverwrites(c: Call, col: Column)
    requires c.event.ObservationCreate? && (col == Type || col == StartTime) && RowOf(c)[col] != Null
    ensures Overwrites(WriteOf(c), col)
  {
    WriteFacts(c, col);
    assert col in {Type, StartTime};
  }

  lemma TypedNotNull(c: Call)
    requires IsObservation(c.event) && WellTyped(c)
    ensures RowOf(c)[Type] != Null && RowOf(c)[StartTime] != Null && RowOf(c)[Level] != Null
  {
  }

  lemma CreateWrites(c: Call)
    requires c.event.ObservationCreate? && WellTyped(c)
    ensures Overwrites(WriteOf(c), Type) && Overwrites(WriteOf(c), StartTime)
  {
    hide WriteOf, RowOf, SentBy;
    TypedNotNull(c);
    CreateOverwrites(c, Type);
    CreateOverwrites(c, StartTime);
  }

  lemma StartsAndTypesWritten(calls: set<Call>, k: Key, traceId: string, col: Column)
    requires Lifecycle(calls, k, traceId)
    requires forall c :: c in calls ==> !Overwrites(WriteOf(c), col)
    ensures col != Type && col != StartTime
  {
    hide WriteOf, RowOf, SentBy;
    var c :| c in calls && c.event.ObservationCreate?;
    CreateWrites(c);
  }

  /** A create's null for a column leaves it as an insert would. */
  lemma SentNull(c: Call, col: Column)
    requires IsObservation(c.event) && WellTyped(c) && col in SentBy(c) && !Overwrites(WriteOf(c), col)
    ensures RowOf(c)[col] == UnwrittenValue(c.event.traceId, 0, col)
  {
    hide WriteOf, RowOf, SentBy;
    SentIsOrdinary(c);
    WriteFacts(c, col);
    assert RowOf(c)[col] == Null;
  }

  /** A column one of the calls sends holds what that call sent. */
  lemma SentCell(calls: set<Call>, k: Key, traceId: string, table: Table, order: seq<Call>, c: Call, col: Column)
    requires Lifecycle(calls, k, traceId) && k !in table && Delivers(order, calls) && c in order
    requires forall d :: d in order ==> d in calls
    requires col in SentBy(c)
    ensures k in ApplyAll(table, ObservationSteps(order)) && ApplyAll(table, ObservationSteps(order))[k][col] == RowOf(c)[col]
  {
    hide WriteOf, RowOf, SentBy;
    SentIsOrdinary(c);
    if Overwrites(WriteOf(c), col) {
      WrittenCell(calls, k, traceId, table, order, c, col);
    } else {
      WriteFacts(c, col);
      forall d | d in calls ensures !Overwrites(WriteOf(d), col) {
        WriteFacts(d, col);
        assert Redelivered(c, d) || SentBy(c) !! SentBy(d);
      }
      UnwrittenCell(calls, k, traceId, table, order, col);
      SentNull(c, col);
    }
  }

  lemma UnsentCell(calls: set<Call>, k: Key, traceId: string, table: Table, order: seq<Call>, col: Column)
    requires Lifecycle(calls, k, traceId) && k !in table && Delivers(order, calls) && order != []
    requires col != CreatedAt && col != UpdatedAt && !Sent(calls, col)
    ensures k in ApplyAll(table, ObservationSteps(order))
    ensures ApplyAll(table, ObservationSteps(order))[k][col] == UnwrittenValue(traceId, 0, col)
  {
    hide WriteOf, RowOf, SentBy;
    forall d | d in calls ensures !Overwrites(WriteOf(d), col) { WriteFacts(d, col); }
    UnwrittenCell(calls, k, traceId, table, order, col);
  }

  lemma Inserted(calls: set<Call>, k: Key, traceId: string, table: Table, order: seq<Call>)
    requires Lifecycle(calls, k, traceId) && k !in table && Delivers(order, calls)
    ensures order != [] && k in ApplyAll(table, ObservationSteps(order))
    ensures forall c :: c in order <==> c in calls
  {
    hide WriteOf, RowOf, SentBy;
    var create :| create in calls && create.event.ObservationCreate?;
    CreateWrites(create);
    WrittenCell(calls, k, traceId, table, order, create, Type);
  }

  lemma TableSettles(table: Table, calls: set<Call>, k: Key, traceId: string, order: seq<Call>, row: Row)
    requires Lifecycle(calls, k, traceId) && k !in table && Delivers(order, calls) && order != []
    requires forall c :: c in order <==> c in calls
    requires forall c :: c in calls ==> IsObservation(c.event)
    requires k in ApplyAll(table, ObservationSteps(order)) && row == ApplyAll(table, ObservationSteps(order))[k]
    ensures Settled(row, calls, traceId)
  {
    hide WriteOf, RowOf, SentBy, ApplyAll, ObservationSteps, Lifecycle, UnwrittenValue;
    forall c, col | c in calls && col in SentBy(c) ensures row[col] == RowOf(c)[col] {
      SentCell(calls, k, traceId, table, order, c, col);
    }
    forall col | col != CreatedAt && col != UpdatedAt && !Sent(calls, col)
      ensures row[col] == UnwrittenValue(traceId, 0, col)
    {
      UnsentCell(calls, k, traceId, table, order, col);
    }
  }

  lemma AcceptedSettles(db: Db, calls: set<Call>, k: Key, traceId: string, order: seq<Call>)
    requires Lifecycle(calls, k, traceId) && k !in db.observations && Delivers(order, calls)
    requires Fold(db, order).Ok?
    ensures k in Fold(db, order).value.observations
    ensures Settled(Fold(db, order).value.observations[k], calls, traceId)
  {
    hide ObservationRow;
    FoldByTable(db, order);
    Inserted(calls, k, traceId, db.observations, order);
    TableSettles(db.observations, calls, k, traceId, order, Fold(db, order).value.observations[k]);
  }

  /** Convergence. When the end is in time, the create and the updates of an observation are
      accepted one by one in whatever order they arrive, and however often, and always end in
      the same row. */
  lemma Converges(db: Db, calls: set<Call>, k: Key, traceId: string, order: seq<Call>)
    requires Lifecycle(calls, k, traceId) && InTime(calls) && k !in db.observations && Delivers(order, calls)
    ensures Fold(db, order).Ok?
    ensures k in Fold(db, order).value.observations
    ensures Settled(Fold(db, order).value.observations[k], calls, traceId)
  {
    hide ObservationRow;
    InTimeAccepted(db, calls, k, traceId, order);
    AcceptedSettles(db, calls, k, traceId, order);
  }

  // --- a create and an update that share columns --------------------------------------------------------

  /** Row `k` after two calls on it, the first of which inserts it. */
  lemma TwoCalls(db: Db, a: Call, b: Call, k: Key, after: Db)
    requires IsObservation(a.event) && IsObservation(b.event) && KeyOf(a.event) == k && KeyOf(b.event) == k
    requires k !in db.observations && Fold(db, [a, b]) == Ok(after)
    ensures k in after.observations
    ensures forall col ::
              after.observations[k][col] == if Overwrites(WriteOf(b), col) then RowOf(b)[col] else RowOf(a)[col]
  {
    hide WriteOf, RowOf, SentBy;
    FoldByTable(db, [a, b]);
    StepsOfTwo(a, b);
    WriteFacts(a, Name);
    WriteFacts(b, Name);
    TwoWrites(db.observations, WriteOf(a), WriteOf(b), k);
  }

  /** Rows that differ in their bookkeeping times at most. */
  predicate SameButTimes(r: Row, s: Row) {
    forall col | col != CreatedAt && col != UpdatedAt :: r[col] == s[col]
  }

  /** One trace, and no column both send for which the create sends another value than null
      or than the update's. */
  ghost predicate Compatible(c: Call, u: Call)
    requires IsObservation(c.event) && IsObservation(u.event)
  {
    && c.event.traceId == u.event.traceId
    && forall col | col in SentBy(c) && col in SentBy(u) :: RowOf(c)[col] == Null || RowOf(c)[col] == RowOf(u)[col]
  }

  lemma PairRows(c: Call, u: Call, x: Row, y: Row)
    requires c.event.ObservationCreate? && u.event.ObservationUpdate? && WellTyped(c)
    requires forall col :: x[col] == if Overwrites(WriteOf(u), col) then RowOf(u)[col] else RowOf(c)[col]
    requires forall col :: y[col] == if Overwrites(WriteOf(c), col) then RowOf(c)[col] else RowOf(u)[col]
    ensures SameButTimes(x, y) <==> Compatible(c, u)
  {
    hide WriteOf, RowOf, SentBy, Overwrites, ColumnCompatible;
    forall col | col != CreatedAt && col != UpdatedAt
      ensures x[col] == y[col] <==> ColumnCompatible(c, u, col)
    {
      ColumnAgreesIff(c, u, col);
    }
    CompatibleByColumn(c, u);
  }

  lemma CompatibleByColumn(c: Call, u: Call)
    requires IsObservation(c.event) && IsObservation(u.event)
    ensures Compatible(c, u) <==> forall col :: col != CreatedAt && col != UpdatedAt ==> ColumnCompatible(c, u, col)
  {
    hide SentBy, RowOf;
    SentIsOrdinary(c);
    if forall col :: col != CreatedAt && col != UpdatedAt ==> ColumnCompatible(c, u, col) {
      assert ColumnCompatible(c, u, TraceId);
      forall col | col in SentBy(c) && col in SentBy(u)
        ensures RowOf(c)[col] == Null || RowOf(c)[col] == RowOf(u)[col]
      {
        assert ColumnCompatible(c, u, col);
      }
    }
  }

  /** A create and an update end in the same row in both orders exactly if they are compatible. */
  lemma PairConvergesIff(db: Db, c: Call, u: Call, k: Key, inOrder: Db, outOfOrder: Db)
    requires c.event.ObservationCreate? && u.event.ObservationUpdate? && KeyOf(c.event) == k && KeyOf(u.event) == k
    requires WellTyped(c) && k !in db.observations
    requires Fold(db, [c, u]) == Ok(inOrder) && Fold(db, [u, c]) == Ok(outOfOrder)
    ensures k in inOrder.observations && k in outOfOrder.observations
    ensures SameButTimes(inOrder.observations[k], outOfOrder.observations[k]) <==> Compatible(c, u)
  {
    hide Fold, WriteOf, RowOf, SentBy;
    TwoCalls(db, c, u, k, inOrder);
    TwoCalls(db, u, c, k, outOfOrder);
    PairRows(c, u, inOrder.observations[k], outOfOrder.observations[k]);
  }

  // --- any number of events that share columns -----------------------------------------------------------

  /** One trace, and the same value in every column both set. */
  ghost predicate Agree(c: Call, d: Call)
    requires IsObservation(c.event) && IsObservation(d.event)
  {
    && c.event.traceId == d.event.traceId
    && forall col :: Sets(c, col) && Sets(d, col) ==> RowOf(c)[col] == RowOf(d)[col]
  }

  /** Calls on observation `k`, a create among them. */
  ghost predicate About(calls: set<Call>, k: Key) {
    OfOne(calls, k) && exists c :: c in calls && c.event.ObservationCreate?
  }

  ghost predicate AllAgree(calls: set<Call>)
    requires forall c :: c in calls ==> IsObservation(c.event)
  {
    forall c, d :: c in calls && d in calls ==> Agree(c, d)
  }

  /** A column that some call sets holds what a call that sets it sends. */
  lemma SetCell(table: Table, calls: set<Call>, k: Key, order: seq<Call>, c: Call, col: Column)
    requires About(calls, k) && AllAgree(calls) && k !in table && Delivers(order, calls)
    requires c in calls && Sets(c, col) && col != CreatedAt && col != UpdatedAt
    ensures k in ApplyAll(table, ObservationSteps(order)) && ApplyAll(table, ObservationSteps(order))[k][col] == RowOf(c)[col]
  {
    hide WriteOf, RowOf, SentBy, Overwrites, WellTyped, Sets;
    var ws := ObservationSteps(order);
    SetsIffOverwrites(c, col);
    WriteFacts(c, col);
    WriteAmongSteps(order, c);
    WrittenBySome(ws, WriteOf(c), col);
    CellAfter(table, ws, k);
    FirstProposedFrom(ws, k);
    var w := CellProposed(table, ws, k, col);
    var d := CallBehind(order, w);
    WriteFacts(d, col);
    SetsIffOverwrites(d, col);
    assert Agree(c, d);
  }

  /** A column that no call sets holds what any insert puts there. */
  lemma UnsetCell(table: Table, calls: set<Call>, k: Key, order: seq<Call>, col: Column, traceId: string)
    requires About(calls, k) && k !in table && Delivers(order, calls)
    requires forall c :: c in calls ==> c.event.traceId == traceId && !Sets(c, col)
    requires col != CreatedAt && col != UpdatedAt
    ensures k in ApplyAll(table, ObservationSteps(order))
    ensures ApplyAll(table, ObservationSteps(order))[k][col] == UnwrittenValue(traceId, 0, col)
  {
    hide WriteOf, RowOf, SentBy, Overwrites, Sets;
    var ws := ObservationSteps(order);
    var create :| create in calls && create.event.ObservationCreate?;
    WriteFacts(create, Name);
    WriteAmongSteps(order, create);
    CellAfter(table, ws, k);
    FirstProposedFrom(ws, k);
    CreateWrites(create);
    SetsIffOverwrites(create, col);
    var w := CellProposed(table, ws, k, col);
    var d := CallBehind(order, w);
    WriteFacts(d, Name);
    SetsIffOverwrites(d, col);
    NotOverwritten(d, col);
  }

  lemma AgreedCells(table: Table, calls: set<Call>, k: Key, x: seq<Call>, y: seq<Call>, col: Column)
    requires About(calls, k) && AllAgree(calls) && k !in table && Delivers(x, calls) && Delivers(y, calls)
    requires col != CreatedAt && col != UpdatedAt
    ensures k in ApplyAll(table, ObservationSteps(x)) && k in ApplyAll(table, ObservationSteps(y))
    ensures ApplyAll(table, ObservationSteps(x))[k][col] == ApplyAll(table, ObservationSteps(y))[k][col]
  {
    hide WriteOf, RowOf, SentBy, Overwrites, Sets, ApplyAll, ObservationSteps, UnwrittenValue, WellTyped;
    if c :| c in calls && Sets(c, col) {
      SetCell(table, calls, k, x, c, col);
      SetCell(table, calls, k, y, c, col);
    } else {
      var create :| create in calls && create.event.ObservationCreate?;
      assert IsObservation(create.event);
      forall c | c in calls && IsObservation(c.event) ensures c.event.traceId == create.event.traceId {
        assert Agree(c, create);
      }
      UnsetCell(table, calls, k, x, col, create.event.traceId);
      UnsetCell(table, calls, k, y, col, create.event.traceId);
    }
  }

  /** The last call of an order sets its columns for good. */
  lemma LastSets(table: Table, k: Key, rest: seq<Call>, c: Call, col: Column)
    requires forall d :: d in rest + [c] ==> IsObservation(d.event) && KeyOf(d.event) == k
    requires k !in table && Sets(c, col) && col != CreatedAt && col != UpdatedAt
    ensures k in ApplyAll(table, ObservationSteps(rest + [c]))
    ensures ApplyAll(table, ObservationSteps(rest + [c]))[k][col] == RowOf(c)[col]
  {
    hide WriteOf, RowOf, SentBy, Overwrites, Sets;
    var order := rest + [c];
    assert c in order && order[..|rest|] == rest;
    OneStep(c);
    var ws := ObservationSteps(order);
    assert ws == ObservationSteps(rest) + [WriteOf(c)];
    WriteFacts(c, col);
    SetsIffOverwrites(c, col);
    CellAfter(table, ws, k);
    FirstProposedFrom(ws, k);
    Snoc(ObservationSteps(rest), WriteOf(c), k);
    assert WriteOf(c) in ws;
  }

  /** The first call of an order fixes the trace. */
  lemma FirstFixesTrace(table: Table, k: Key, c: Call, rest: seq<Call>)
    requires IsObservation(c.event)
    requires forall d :: d in [c] + rest ==> IsObservation(d.event) && KeyOf(d.event) == k
    requires k !in table
    ensures k in ApplyAll(table, ObservationSteps([c] + rest))
    ensures ApplyAll(table, ObservationSteps([c] + rest))[k][TraceId] == Text(c.event.traceId)
  {
    hide WriteOf, RowOf, SentBy, Overwrites;
    var order := [c] + rest;
    var ws := ObservationSteps(order);
    assert c in order;
    StepsOfCalls(order);
    assert ws == [ws[0]] + ws[1..] && ws[0] == WriteOf(c);
    WriteFacts(c, TraceId);
    RowFacts(c);
    assert FirstProposed([ws[0]], k) == Some(RowOf(c)) by { FirstOfOne(ws[0]); }
    FirstProposedConcat([ws[0]], ws[1..], k);
    CellAfter(table, ws, k);
    LastWrittenFrom(ws, k, TraceId);
    forall w | w in ws ensures !Overwrites(w, TraceId) {
      var d := CallBehind(order, w);
      WriteFacts(d, TraceId);
      SentIsOrdinary(d);
    }
  }

  lemma FirstOfOne(w: Write)
    ensures FirstProposed([w], w.key) == Some(w.proposed)
  {
    assert [w][..0] == [];
  }

  lemma BringToBack(calls: seq<Call>, c: Call) returns (rest: seq<Call>)
    requires c in calls
    ensures multiset(rest + [c]) == multiset(calls)
  {
    rest := BringToFront(calls, c);
    assert multiset(rest + [c]) == multiset([c] + rest);
  }

  /** The row all orders end in, creation and update times aside. */
  ghost predicate OneRow(db: Db, calls: seq<Call>, k: Key) {
    forall x, y :: multiset(x) == multiset(calls) && multiset(y) == multiset(calls) ==> EndAlike(db, x, y, k)
  }

  ghost predicate EndAlike(db: Db, x: seq<Call>, y: seq<Call>, k: Key) {
    && Fold(db, x).Ok? && Fold(db, y).Ok?
    && k in Fold(db, x).value.observations && k in Fold(db, y).value.observations
    && SameButTimes(Fold(db, x).value.observations[k], Fold(db, y).value.observations[k])
  }

  lemma AgreeingEndAlike(db: Db, calls: set<Call>, k: Key, x: seq<Call>, y: seq<Call>)
    requires About(calls, k) && AllAgree(calls) && k !in db.observations && Delivers(x, calls) && Delivers(y, calls)
    requires Fold(db, x).Ok? && Fold(db, y).Ok?
    ensures EndAlike(db, x, y, k)
  {
    hide ApplyAll, ObservationSteps, Fold, About, AllAgree, Delivers;
    FoldByTable(db, x);
    FoldByTable(db, y);
    AgreedCells(db.observations, calls, k, x, y, Name);
    forall col | col != CreatedAt && col != UpdatedAt
      ensures Fold(db, x).value.observations[k][col] == Fold(db, y).value.observations[k][col]
    {
      AgreedCells(db.observations, calls, k, x, y, col);
    }
  }

  /** What an accepted order of the calls stores. */
  lemma OrderStores(db: Db, calls: seq<Call>, k: Key, order: seq<Call>)
    requires About(Set(calls), k) && AcceptedInEveryOrder(db, multiset(calls)) && multiset(order) == multiset(calls)
    ensures Fold(db, order).Ok?
    ensures Fold(db, order).value.observations == ApplyAll(db.observations, ObservationSteps(order))
    ensures forall c :: c in order ==> IsObservation(c.event) && KeyOf(c.event) == k
  {
    hide WellTyped, ApplyAll, ObservationSteps;
    SameDelivered(order, calls);
    FoldByTable(db, order);
  }

  lemma TracesApart(db: Db, calls: seq<Call>, k: Key, c: Call, d: Call) returns (x: seq<Call>, y: seq<Call>)
    requires About(Set(calls), k) && k !in db.observations && c in calls && d in calls
    requires IsObservation(c.event) && IsObservation(d.event) && c.event.traceId != d.event.traceId
    requires AcceptedInEveryOrder(db, multiset(calls))
    ensures multiset(x) == multiset(calls) && multiset(y) == multiset(calls) && !EndAlike(db, x, y, k)
  {
    hide WellTyped, ApplyAll, ObservationSteps, Fold, About, AcceptedInEveryOrder;
    var rest := BringToFront(calls, c);
    var more := BringToFront(calls, d);
    x, y := [c] + rest, [d] + more;
    OrderStores(db, calls, k, x);
    OrderStores(db, calls, k, y);
    FirstFixesTrace(db.observations, k, c, rest);
    FirstFixesTrace(db.observations, k, d, more);
  }

  lemma ColumnsApart(db: Db, calls: seq<Call>, k: Key, c: Call, d: Call, col: Column)
    returns (x: seq<Call>, y: seq<Call>)
    requires About(Set(calls), k) && k !in db.observations && c in calls && d in calls
    requires IsObservation(c.event) && IsObservation(d.event)
    requires Sets(c, col) && Sets(d, col) && RowOf(c)[col] != RowOf(d)[col]
    requires AcceptedInEveryOrder(db, multiset(calls))
    ensures multiset(x) == multiset(calls) && multiset(y) == multiset(calls) && !EndAlike(db, x, y, k)
  {
    hide WellTyped, ApplyAll, ObservationSteps, Fold, About, AcceptedInEveryOrder, Sets, RowOf;
    var rest := BringToBack(calls, c);
    var more := BringToBack(calls, d);
    x, y := rest + [c], more + [d];
    OrderStores(db, calls, k, x);
    OrderStores(db, calls, k, y);
    SetsOrdinary(c, col);
    LastSets(db.observations, k, rest, c, col);
    LastSets(db.observations, k, more, d, col);
  }

  /** Two calls that do not agree end in different rows. */
  lemma DisagreeingEndApart(db: Db, calls: seq<Call>, k: Key, c: Call, d: Call) returns (x: seq<Call>, y: seq<Call>)
    requires About(Set(calls), k) && k !in db.observations && c in calls && d in calls
    requires IsObservation(c.event) && IsObservation(d.event) && !Agree(c, d)
    requires AcceptedInEveryOrder(db, multiset(calls))
    ensures multiset(x) == multiset(calls) && multiset(y) == multiset(calls) && !EndAlike(db, x, y, k)
  {
    hide About, AcceptedInEveryOrder, Sets, RowOf, EndAlike;
    if c.event.traceId != d.event.traceId {
      x, y := TracesApart(db, calls, k, c, d);
    } else {
      var col :| Sets(c, col) && Sets(d, col) && RowOf(c)[col] != RowOf(d)[col];
      x, y := ColumnsApart(db, calls, k, c, d, col);
    }
  }

  lemma SetsOrdinary(c: Call, col: Column)
    requires IsObservation(c.event) && Sets(c, col)
    ensures col != CreatedAt && col != UpdatedAt
  {
    SentIsOrdinary(c);
  }

  /** The exact condition, for any number of creates and updates of an observation: every order
      is accepted and they all end in one row if and only if no end is before a start it can
      meet and every two calls agree. Then redeliveries change nothing either. */
  lemma ConvergeIffAgree(db: Db, calls: seq<Call>, k: Key)
    requires About(Set(calls), k) && k !in db.observations
    ensures OneRow(db, calls, k) <==> Timely(Set(calls)) && AllAgree(Set(calls))
    ensures Timely(Set(calls)) && AllAgree(Set(calls)) ==>
              forall x, y :: Delivers(x, Set(calls)) && Delivers(y, Set(calls)) ==> EndAlike(db, x, y, k)
  {
    hide Fold, RowOf, SentBy, Agree, Timely, EndAlike;
    AcceptedInEveryOrderIffTimely(db, calls, k);
    if !Timely(Set(calls)) {
      var order := UntimelyRefused(db, calls, k);
      assert !EndAlike(db, order, order, k) by { RefusedApart(db, order, k); }
    } else if AllAgree(Set(calls)) {
      forall x, y | Delivers(x, Set(calls)) && Delivers(y, Set(calls)) ensures EndAlike(db, x, y, k) {
        AgreeingEndAlike(db, Set(calls), k, x, y);
      }
      forall x, y | multiset(x) == multiset(calls) && multiset(y) == multiset(calls) ensures EndAlike(db, x, y, k) {
        SameDelivered(x, calls);
        SameDelivered(y, calls);
      }
    } else {
      var c, d :| c in Set(calls) && d in Set(calls) && !Agree(c, d);
      var x, y := DisagreeingEndApart(db, calls, k, c, d);
    }
  }

  lemma RefusedApart(db: Db, order: seq<Call>, k: Key)
    requires !Fold(db, order).Ok?
    ensures !EndAlike(db, order, order, k)
  {
  }

  predicate ColumnCompatible(c: Call, u: Call, col: Column)
    requires IsObservation(c.event) && IsObservation(u.event)
  {
    if col == TraceId then c.event.traceId == u.event.traceId
    else col in SentBy(c) && col in SentBy(u) ==> RowOf(c)[col] == Null || RowOf(c)[col] == RowOf(u)[col]
  }

  lemma ColumnAgreesIff(c: Call, u: Call, col: Column)
    requires c.event.ObservationCreate? && u.event.ObservationUpdate? && WellTyped(c)
    requires col != CreatedAt && col != UpdatedAt
    ensures ColumnCompatible(c, u, col) <==>
            (if Overwrites(WriteOf(u), col) then RowOf(u)[col] else RowOf(c)[col]) ==
            (if Overwrites(WriteOf(c), col) then RowOf(c)[col] else RowOf(u)[col])
  {
    hide WriteOf, RowOf, SentBy;
    WriteFacts(c, col);
    WriteFacts(u, col);
    if col == TraceId {
      SentIsOrdinary(c);
      SentIsOrdinary(u);
      RowFacts(c);
      RowFacts(u);
    } else if col == Type || col == StartTime {
      CreateWrites(c);
    } else {
      OrdinaryColumnAgreesIff(c, u, col);
    }
  }

  lemma OrdinaryColumnAgreesIff(c: Call, u: Call, col: Column)
    requires c.event.ObservationCreate? && u.event.ObservationUpdate? && WellTyped(c)
    requires col != CreatedAt && col != UpdatedAt && col != TraceId && col != Type && col != StartTime
    ensures ColumnCompatible(c, u, col) <==>
            (if Overwrites(WriteOf(u), col) then RowOf(u)[col] else RowOf(c)[col]) ==
            (if Overwrites(WriteOf(c), col) then RowOf(c)[col] else RowOf(u)[col])
  {
    hide WriteOf, RowOf, SentBy;
    WriteFacts(c, col);
    WriteFacts(u, col);
    if col !in SentBy(u) { Unsent(u, col); }
    if col !in SentBy(c) { Unsent(c, col); }
    TypedNotNull(c);
  }

  /** The SDK's own pair does not converge: its create always sends level DEFAULT, so an error
      end that arrives first loses its ERROR level. */
  lemma ErrorLevelLostOutOfOrder(db: Db, c: Call, u: Call, k: Key, inOrder: Db, outOfOrder: Db)
    requires c.event.ObservationCreate? && u.event.ObservationUpdate? && KeyOf(c.event) == k && KeyOf(u.event) == k
    requires Level in c.event.body && c.event.body[Level] == Text("OBSERVATION_LEVEL_DEFAULT")
    requires Level in u.event.body && u.event.body[Level] == Text("OBSERVATION_LEVEL_ERROR")
    requires k !in db.observations && Fold(db, [c, u]) == Ok(inOrder) && Fold(db, [u, c]) == Ok(outOfOrder)
    ensures k in inOrder.observations && inOrder.observations[k][Level] == Text("ERROR")
    ensures k in outOfOrder.observations && outOfOrder.observations[k][Level] == Text("DEFAULT")
  {
    hide Fold, WriteOf, RowOf, SentBy;
    TwoCalls(db, c, u, k, inOrder);
    TwoCalls(db, u, c, k, outOfOrder);
    LevelOf(c, "DEFAULT");
    LevelOf(u, "ERROR");
  }

  lemma LevelSent(e: Event, now: int, name: string)
    requires IsObservation(e) && Level in e.body && (name == "DEFAULT" || name == "ERROR")
    requires e.body[Level] == Text("OBSERVATION_LEVEL_" + name)
    ensures ObservationValue(e, now, Level) == Text(name)
  {
    LevelNames();
  }

  lemma LevelOf(c: Call, name: string)
    requires IsObservation(c.event) && Level in c.event.body
    requires name == "DEFAULT" || name == "ERROR"
    requires c.event.body[Level] == Text("OBSERVATION_LEVEL_" + name)
    ensures RowOf(c)[Level] == Text(name) && Overwrites(WriteOf(c), Level)
  {
    hide WriteOf, ObservationValue, SentValue;
    LevelSent(c.event, c.now, name);
    WriteFacts(c, Level);
    assert Level in SentBy(c);
  }

  lemma LevelNames()
    ensures EnumName(Text("OBSERVATION_LEVEL_DEFAULT"), "OBSERVATION_LEVEL_", Text("DEFAULT")) == Text("DEFAULT")
    ensures EnumName(Text("OBSERVATION_LEVEL_ERROR"), "OBSERVATION_LEVEL_", Text("DEFAULT")) == Text("ERROR")
  {
    assert "OBSERVATION_LEVEL_DEFAULT" == "OBSERVATION_LEVEL_" + "DEFAULT";
    assert "OBSERVATION_LEVEL_ERROR" == "OBSERVATION_LEVEL_" + "ERROR";
  }

  // --- the SDK's pair, spelled out ------------------------------------------------------------------------

  /** What `_start_span` sends for a span of trace "t" that starts at 0. */
  const OPENED: Call := Call(
    ObservationCreate("p", "s", "t", Some(1),
                      map[Type := Text("OBSERVATION_TYPE_SPAN"), StartTime := Time(0),
                          Level := Text("OBSERVATION_LEVEL_DEFAULT")]),
    10)

  /** What `_end_span` sends when the body returned, and when it raised. */
  const ENDED: Call := Call(ObservationUpdate("p", "s", "t", Some(6), map[EndTime := Time(5)]), 11)
  const FAILED: Call := Call(
    ObservationUpdate("p", "s", "t", Some(6), map[EndTime := Time(5), Level := Text("OBSERVATION_LEVEL_ERROR")]), 11)

  const SPAN: Key := Key("p", "s")

  lemma CellOf(c: Call, col: Column)
    requires IsObservation(c.event)
    ensures RowOf(c)[col] == ObservationValue(c.event, c.now, col)
    ensures col in SentBy(c) <==> Sends(c.event.body, col) || (c.event.ObservationCreate? && (col == Type || col == StartTime))
  {
    hide ObservationValue, SentValue, Sends;
    assert col in ObservationFields(c.event.body) <==> Sends(c.event.body, col);
  }

  /** The cells the constraints look at. */
  predicate Shows(r: Row, level: string, start: int, end: Value) {
    && r[TraceId] == Text("t") && r[Type] == Text("SPAN") && r[Level] == Text(level)
    && r[StartTime] == Time(start) && r[EndTime] == end
  }

  lemma TypeName()
    ensures EnumName(Text("OBSERVATION_TYPE_SPAN"), "OBSERVATION_TYPE_", Null) == Text("SPAN")
  {
    assert "OBSERVATION_TYPE_SPAN" == "OBSERVATION_TYPE_" + "SPAN";
  }

  lemma OpenedValue(col: Column)
    requires col == TraceId || col == Type || col == Level || col == StartTime || col == EndTime
    ensures ObservationValue(OPENED.event, 10, col) ==
            match col
            case TraceId => Text("t")
            case Type => Text("SPAN")
            case Level => Text("DEFAULT")
            case StartTime => Time(0)
            case _ => Null
  {
    hide EnumName;
    LevelNames();
    TypeName();
  }

  lemma OpenedCells()
    ensures Shows(RowOf(OPENED), "DEFAULT", 0, Null)
  {
    hide RowOf, SentBy, ObservationValue;
    forall col | col == TraceId || col == Type || col == Level || col == StartTime || col == EndTime
      ensures RowOf(OPENED)[col] == ObservationValue(OPENED.event, 10, col)
    {
      CellOf(OPENED, col);
    }
    OpenedValue(TraceId);
    OpenedValue(Type);
    OpenedValue(Level);
    OpenedValue(StartTime);
    OpenedValue(EndTime);
  }

  lemma EndedValue(col: Column)
    requires col == TraceId || col == Type || col == Level || col == StartTime || col == EndTime
    ensures ObservationValue(ENDED.event, 11, col) ==
            match col
            case TraceId => Text("t")
            case Type => Text("SPAN")
            case Level => Text("DEFAULT")
            case StartTime => Time(5)
            case _ => Time(5)
  {
    hide EnumName;
  }

  lemma EndedCells()
    ensures Shows(RowOf(ENDED), "DEFAULT", 5, Time(5))
  {
    hide RowOf, SentBy, ObservationValue;
    forall col | col == TraceId || col == Type || col == Level || col == StartTime || col == EndTime
      ensures RowOf(ENDED)[col] == ObservationValue(ENDED.event, 11, col)
    {
      CellOf(ENDED, col);
    }
    EndedValue(TraceId);
    EndedValue(Type);
    EndedValue(Level);
    EndedValue(StartTime);
    EndedValue(EndTime);
  }

  lemma FailedValue(col: Column)
    requires col == TraceId || col == Type || col == Level || col == StartTime || col == EndTime
    ensures ObservationValue(FAILED.event, 11, col) ==
            match col
            case TraceId => Text("t")
            case Type => Text("SPAN")
            case Level => Text("ERROR")
            case StartTime => Time(5)
            case _ => Time(5)
  {
    hide EnumName;
    LevelNames();
  }

  lemma FailedCells()
    ensures Shows(RowOf(FAILED), "ERROR", 5, Time(5))
  {
    hide RowOf, SentBy, ObservationValue;
    forall col | col == TraceId || col == Type || col == Level || col == StartTime || col == EndTime
      ensures RowOf(FAILED)[col] == ObservationValue(FAILED.event, 11, col)
    {
      CellOf(FAILED, col);
    }
    FailedValue(TraceId);
    FailedValue(Type);
    FailedValue(Level);
    FailedValue(StartTime);
    FailedValue(EndTime);
  }

  function LevelName(u: Call): string {
    if u == FAILED then "ERROR" else "DEFAULT"
  }

  lemma ClosedCells(u: Call)
    requires u == ENDED || u == FAILED
    ensures Shows(RowOf(u), LevelName(u), 5, Time(5))
  {
    hide RowOf, Shows;
    EndedCells();
    FailedCells();
  }

  /** Both orders are accepted. */
  lemma SdkAccepted(u: Call)
    requires u == ENDED || u == FAILED
    ensures Fold(EMPTY, [OPENED, u]).Ok? && Fold(EMPTY, [u, OPENED]).Ok?
  {
    hide RowOf, SentBy, Sets, Fold;
    OpenedCells();
    ClosedCells(u);
    assert OfOne({OPENED, u}, SPAN) && Timely({OPENED, u});
    TimelyAccepted(EMPTY, {OPENED, u}, SPAN, [OPENED, u]);
    TimelyAccepted(EMPTY, {OPENED, u}, SPAN, [u, OPENED]);
  }

  lemma NothingShared(col: Column)
    ensures !(col in SentBy(OPENED) && col in SentBy(ENDED))
    ensures EndTime !in SentBy(OPENED)
  {
    hide SentBy, RowOf, ObservationValue;
    CellOf(OPENED, col);
    CellOf(ENDED, col);
    CellOf(OPENED, EndTime);
  }

  /** A span that ends quietly is a lifecycle in time: both orders are accepted and converge. */
  lemma QuietSpanConverges()
    ensures Lifecycle({OPENED, ENDED}, SPAN, "t") && InTime({OPENED, ENDED})
    ensures Fold(EMPTY, [OPENED, ENDED]).Ok? && Fold(EMPTY, [ENDED, OPENED]).Ok?
  {
    hide RowOf, SentBy, WriteOf, Fold;
    OpenedCells();
    EndedCells();
    SdkAccepted(ENDED);
    NothingShared(Name);
    assert SentBy(OPENED) !! SentBy(ENDED) by {
      forall col ensures !(col in SentBy(OPENED) && col in SentBy(ENDED)) { NothingShared(col); }
    }
    assert OPENED in {OPENED, ENDED};
  }

  /** A span that fails is accepted in both orders, and its ERROR survives only in order. */
  lemma FailedSpanLosesError()
    ensures Fold(EMPTY, [OPENED, FAILED]).Ok? && Fold(EMPTY, [FAILED, OPENED]).Ok?
    ensures SPAN in Fold(EMPTY, [OPENED, FAILED]).value.observations
    ensures Fold(EMPTY, [OPENED, FAILED]).value.observations[SPAN][Level] == Text("ERROR")
    ensures SPAN in Fold(EMPTY, [FAILED, OPENED]).value.observations
    ensures Fold(EMPTY, [FAILED, OPENED]).value.observations[SPAN][Level] == Text("DEFAULT")
  {
    hide RowOf, SentBy, WriteOf, Fold;
    SdkAccepted(FAILED);
    ErrorLevelLostOutOfOrder(EMPTY, OPENED, FAILED, SPAN,
                             Fold(EMPTY, [OPENED, FAILED]).value, Fold(EMPTY, [FAILED, OPENED]).value);
  }
}
