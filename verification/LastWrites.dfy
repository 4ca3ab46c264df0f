/** The greatest of some numbers. */
module Maxima {
  function Greatest(s: set<int>): (x: int)
    requires s != {}
    ensures x in s && forall y :: y in s ==> y <= x
  {
    GreatestExists(s);
    var x: int :| x in s && forall y :: y in s ==> y <= x;
    x
  }

  lemma Pick<T>(s: set<T>) returns (x: T)
    requires s != {}
    ensures x in s
  {
    x :| x in s;
  }

  lemma {:induction false} GreatestExists(s: set<int>)
    ensures s != {} ==> exists x :: x in s && forall y :: y in s ==> y <= x
  {
    if s != {} {
      var x := Pick(s);
      var rest := s - {x};
      assert s == rest + {x};
      GreatestExists(rest);
      var z := x;
      if rest != {} {
        z :| z in rest && forall y :: y in rest ==> y <= z;
      }
      var top := if x < z then z else x;
      assert top in s && forall y :: y in s ==> y <= top;
    }
  }
}

/** `is_settled`: how long ago a trace or one of its observations was last written. */
module LastWrites {
  import opened Maxima
  import opened Tables
  import opened Events
  import opened Pricing
  import opened Ingest
  import opened BatchRefinement
  import opened DbInvariants
  import opened SingleCalls

  const SETTLE_SECONDS: int := 5

  /** COALESCE(MAX(...), to_timestamp(0)) */
  function GreatestOrEpoch(s: set<int>): int {
    if s == {} then 0 else Greatest(s)
  }

  predicate OfTrace(k: Key, row: Row, m: Key) {
    k.project == m.project && row[TraceId] == Text(m.id)
  }

  /** When the observations joined to trace `m` were updated: none without a trace row. */
  function ObservationTimes(db: Db, m: Key): set<int> {
    set k | k in db.observations && m in db.traces && OfTrace(k, db.observations[k], m) &&
            db.observations[k][UpdatedAt].Time? :: db.observations[k][UpdatedAt].at
  }

  function TraceTimes(db: Db, m: Key): set<int> {
    if m in db.traces && db.traces[m][UpdatedAt].Time? then {db.traces[m][UpdatedAt].at} else {}
  }

  function Later(a: int, b: int): int {
    if a < b then b else a
  }

  /** The settle query. It aggregates without GROUP BY, so a trace without a row reads as the
      epoch and not as NULL. */
  function LastWrite(db: Db, m: Key): int {
    Later(GreatestOrEpoch(ObservationTimes(db, m)), GreatestOrEpoch(TraceTimes(db, m)))
  }

  predicate IsSettled(db: Db, m: Key, now: int) {
    now - LastWrite(db, m) >= SETTLE_SECONDS
  }

  predicate AllBefore(times: set<int>, at: int) {
    if times == {} then 0 <= at else forall x :: x in times ==> x <= at
  }

  /** Settled means that everything of the trace was written SETTLE_SECONDS ago or earlier. */
  lemma SettledIffQuiet(db: Db, m: Key, now: int)
    ensures IsSettled(db, m, now) <==>
            AllBefore(ObservationTimes(db, m), now - SETTLE_SECONDS) && AllBefore(TraceTimes(db, m), now - SETTLE_SECONDS)
  {
    hide ObservationTimes, TraceTimes;
  }

  /** The same in terms of the rows, for a trace that has one. */
  lemma SettledWrittenOut(db: Db, m: Key, now: int)
    requires m in db.traces && db.traces[m][UpdatedAt].Time?
    requires forall k :: k in db.observations ==> db.observations[k][UpdatedAt].Time?
    ensures IsSettled(db, m, now) <==>
              && db.traces[m][UpdatedAt].at <= now - SETTLE_SECONDS
              && (forall k :: k in db.observations && k.project == m.project && db.observations[k][TraceId] == Text(m.id) ==>
                    db.observations[k][UpdatedAt].at <= now - SETTLE_SECONDS)
              && ((exists k :: k in db.observations && k.project == m.project && db.observations[k][TraceId] == Text(m.id)) ||
                  now >= SETTLE_SECONDS)
  {
    hide LastWrite, IsSettled;
    SettledIffQuiet(db, m, now);
    forall k | k in db.observations && OfTrace(k, db.observations[k], m)
      ensures db.observations[k][UpdatedAt].at in ObservationTimes(db, m)
    {
    }
  }

  /** A trace that has no row counts as settled, whatever observations name it. */
  lemma AbsentTraceSettled(db: Db, m: Key, now: int)
    requires m !in db.traces
    ensures IsSettled(db, m, now) <==> now >= SETTLE_SECONDS
  {
    assert ObservationTimes(db, m) == {};
  }

  lemma RowTimeCounts(db: Db, m: Key, k: Key, at: int)
    requires m in db.traces && k in db.observations && OfTrace(k, db.observations[k], m)
    requires db.observations[k][UpdatedAt] == Time(at)
    ensures at <= LastWrite(db, m)
  {
    assert at in ObservationTimes(db, m);
  }

  lemma TraceTimeCounts(db: Db, m: Key, at: int)
    requires m in db.traces && db.traces[m][UpdatedAt] == Time(at)
    ensures at <= LastWrite(db, m)
  {
    assert at in TraceTimes(db, m);
  }

  // --- a committed batch unsettles the traces it writes --------------------------------------

  /** Upserts that all stamp `now` leave `now` on every row they touch. */
  lemma StampedNow(table: Table, ws: seq<Write>, now: int, w: Write)
    requires w in ws
    requires forall v :: v in ws ==> Overwrites(v, UpdatedAt) && v.proposed[UpdatedAt] == Time(now)
    ensures w.key in ApplyAll(table, ws) && ApplyAll(table, ws)[w.key][UpdatedAt] == Time(now)
  {
    CellAfter(table, ws, w.key);
    LastWrittenFrom(ws, w.key, UpdatedAt);
    FirstProposedFrom(ws, w.key);
  }

  lemma StampsTrace(e: Event, now: int)
    requires e.TraceCreate?
    ensures Overwrites(TraceMerge(e, now), UpdatedAt) && TraceMerge(e, now).proposed[UpdatedAt] == Time(now)
  {
  }

  lemma StampsObservation(e: Event, now: int)
    requires IsObservation(e)
    ensures Overwrites(StepOf(e, now), UpdatedAt) && StepOf(e, now).proposed[UpdatedAt] == Time(now)
    ensures StepOf(e, now).key == KeyOf(e)
  {
    AlwaysUpdated(e, now);
  }

  lemma ResolvedKeepsTime(row: Row, project: string, models: seq<ModelPrice>, regex: Regex)
    ensures Resolved(row, project, models, regex)[UpdatedAt] == row[UpdatedAt]
    ensures Resolved(row, project, models, regex)[TraceId] == row[TraceId]
  {
  }

  /** A trace_create in a committed batch: the trace is not settled until SETTLE_SECONDS later. */
  lemma CreatedTraceUnsettled(db: Db, events: seq<Event>, now: int, prices: Option<Prices>, e: Event)
    requires ApplyEvents(db, events, now, prices).Ok? && e in events && e.TraceCreate?
    ensures KeyOf(e) in ApplyEvents(db, events, now, prices).value.traces
    ensures LastWrite(ApplyEvents(db, events, now, prices).value, KeyOf(e)) >= now
  {
    hide TraceMerge, LastWrite;
    BatchByTable(db, events, now);
    var ws := TraceWrites(events, now);
    forall w | w in ws ensures Overwrites(w, UpdatedAt) && w.proposed[UpdatedAt] == Time(now) {
      InTraceWrites(events, now, w);
      InTraceMerges(events, now, w);
      var f :| f in events && f.TraceCreate? && w == TraceMerge(f, now);
      StampsTrace(f, now);
    }
    InTraceWrites(events, now, TraceMerge(e, now));
    InTraceMerges(events, now, TraceMerge(e, now));
    StampedNow(db.traces, ws, now, TraceMerge(e, now));
    assert TraceMerge(e, now).key == KeyOf(e) by { MergeKey(e, now); }
    TraceTimeCounts(ApplyEvents(db, events, now, prices).value, KeyOf(e), now);
  }

  lemma MergeKey(e: Event, now: int)
    requires e.TraceCreate?
    ensures TraceMerge(e, now).key == KeyOf(e)
  {
  }

  lemma WrittenStamped(db: Db, events: seq<Event>, now: int, e: Event)
    requires ApplyEvents(db, events, now, None).Ok? && e in events && IsObservation(e)
    ensures var after := ApplyEvents(db, events, now, None).value.observations;
            KeyOf(e) in after && after[KeyOf(e)][UpdatedAt] == Time(now)
  {
    hide StepOf, ApplyAll, ObservationWrites, Referenced, Known;
    BatchByTable(db, events, now);
    var ws := ObservationWrites(events, now);
    forall w | w in ws ensures Overwrites(w, UpdatedAt) && w.proposed[UpdatedAt] == Time(now) {
      var f := BatchStepEvent(events, now, w);
      StampsObservation(f, now);
    }
    StampsObservation(e, now);
    EventWritten(events, now, e);
    StampedNow(db.observations, ws, now, StepOf(e, now));
  }

  /** An observation event in a committed batch unsettles the trace its row belongs to. */
  lemma WrittenObservationUnsettles(db: Db, events: seq<Event>, now: int, prices: Option<Prices>, e: Event, m: Key)
    requires ApplyEvents(db, events, now, prices).Ok? && e in events && IsObservation(e)
    requires m in ApplyEvents(db, events, now, prices).value.traces
    requires KeyOf(e) in ApplyEvents(db, events, now, prices).value.observations ==>
               OfTrace(KeyOf(e), ApplyEvents(db, events, now, prices).value.observations[KeyOf(e)], m)
    ensures LastWrite(ApplyEvents(db, events, now, prices).value, m) >= now
  {
    hide LastWrite, Resolved, Written;
    WrittenStamped(db, events, now, e);
    var plain := ApplyEvents(db, events, now, None).value;
    if prices.Some? {
      ResolvedKeepsTime(plain.observations[KeyOf(e)], e.project, prices.value.models, prices.value.regex);
    }
    RowTimeCounts(ApplyEvents(db, events, now, prices).value, m, KeyOf(e), now);
  }

  lemma EventWritten(events: seq<Event>, now: int, e: Event)
    requires e in events && IsObservation(e)
    ensures StepOf(e, now) in ObservationWrites(events, now)
  {
    var w := StepOf(e, now);
    AreMerges(events, now);
    GroupingKeepsRows(CreateMerges(events, now), w);
    InCreateMerges(events, now, w);
    InUpdatePatches(events, now, w);
  }

  // --- a bare trace_create -----------------------------------------------------------------------

  function BareCreate(m: Key, at: int): Event {
    TraceCreate(m.project, m.id, Some(at), map[])
  }

  /** A batch of one trace_create for `m` that sends nothing but its time stamp. */
  function Touch(m: Key, at: int): Action {
    Action.Batch([BareCreate(m, at)], at, None, false)
  }

  lemma BareRow(m: Key, at: int)
    ensures TraceCheck(TraceRow(BareCreate(m, at), at))
    ensures TraceMerge(BareCreate(m, at), at).sent == {} && TraceMerge(BareCreate(m, at), at).key == m
  {
    assert TraceRow(BareCreate(m, at), at)[Timestamp] == TraceValue(BareCreate(m, at), at, Timestamp);
    assert TraceRow(BareCreate(m, at), at)[IsExperiment] == TraceValue(BareCreate(m, at), at, IsExperiment);
  }

  lemma BareLands(traces: Table, w: Write)
    requires w.Merge? && w.sent == {} && TraceCheck(w.proposed)
    requires w.key in traces ==> TraceCheck(traces[w.key])
    ensures TraceCheck(Landed(traces, w)) && Accepts(traces, w, TraceCheck)
  {
  }

  lemma OneExec(table: Table, w: Write, check: Row -> bool)
    requires Accepts(table, w, check)
    ensures ExecAll(table, [w], check) == Ok(Apply(table, w))
  {
    hide Accepts, Apply;
    assert [w][..0] == [];
    assert ExecAll(table, [], check) == Ok(table);
  }

  lemma BareWrites(db: Db, m: Key, at: int)
    requires m in db.traces ==> TraceCheck(db.traces[m])
    ensures var w := TraceMerge(BareCreate(m, at), at);
            && Written(db, [BareCreate(m, at)], at) == Ok(Db(Apply(db.traces, w), db.observations, db.scores))
            && w.key == m && TraceCheck(Landed(db.traces, w))
  {
    hide TraceRow, Combine, TraceCheck;
    var e := BareCreate(m, at);
    var w := TraceMerge(e, at);
    BareRow(m, at);
    BareLands(db.traces, w);
    OneExec(db.traces, w, TraceCheck);
    PartsOfOne(e, at);
    OneTraceList(Call(e, at));
    OneObservationList(e, at);
    OneReferenced(e);
    NoStubs(Apply(db.traces, w), at);
    assert InsertScores(db.scores, []) == Ok(db.scores);
    assert ExecAll(db.observations, [], ObservationCheck) == Ok(db.observations);
  }

  /** It is accepted on any tables whose trace row is in order, and unsettles the trace. */
  lemma Touched(db: Db, m: Key, at: int)
    requires m in db.traces ==> TraceCheck(db.traces[m])
    ensures var after := Act(db, Touch(m, at));
            && m in after.traces && TraceCheck(after.traces[m]) && LastWrite(after, m) >= at
            && after.traces.Keys == db.traces.Keys + {m}
  {
    hide TraceRow, LastWrite, TraceCheck, Written, TraceMerge, Landed;
    var e := BareCreate(m, at);
    BareWrites(db, m, at);
    assert Buildable(e) && forall f :: f in [e] ==> f == e;
    CreatedTraceUnsettled(db, [e], at, None, e);
  }

  /** The trace row meets its constraints. */
  predicate RowInOrder(db: Db, m: Key)
    requires m in db.traces
  {
    TraceCheck(db.traces[m])
  }

  lemma TouchedInOrder(db: Db, m: Key, at: int)
    requires m in db.traces ==> RowInOrder(db, m)
    ensures var after := Act(db, Touch(m, at));
            && m in after.traces && RowInOrder(after, m) && LastWrite(after, m) >= at
            && after.traces.Keys == db.traces.Keys + {m}
  {
    hide LastWrite, Act;
    Touched(db, m, at);
  }

  lemma OneObservationList(e: Event, now: int)
    requires e.TraceCreate?
    ensures ObservationWrites([e], now) == []
  {
    hide TraceRow;
    PartsOfOne(e, now);
    AreMerges([e], now);
    GroupedOne(CreateMerges([e], now));
  }
}
