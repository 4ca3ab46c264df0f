/** One `apply_events` over a batch, with its grouping and its creates-first order, writes
    what single-event calls in stream order write. */
module BatchRefinement {
  import opened Tables
  import opened Events
  import opened Pricing
  import opened Ingest
  import opened SingleCalls

  /** The events one by one, with the clock of the batch. */
  function CallsOf(events: seq<Event>, now: int): seq<Call> {
    seq(|events|, i requires 0 <= i < |events| => Call(events[i], now))
  }

  lemma CallsInit(events: seq<Event>, now: int)
    requires events != []
    ensures CallsOf(events, now)[..|events| - 1] == CallsOf(events[..|events| - 1], now)
  {
  }

  // --- what the batch must satisfy ----------------------------------------------------------

  /** No two events of the batch write different values to one cell. */
  ghost predicate NoClash(events: seq<Event>, now: int) {
    forall k, c :: ClashFreeAt(TraceSteps(CallsOf(events, now)), k, c) &&
                   ClashFreeAt(ObservationSteps(CallsOf(events, now)), k, c)
  }

  /** The events of an observation that is not stored yet name one trace. */
  predicate OneTraceEach(db: Db, events: seq<Event>) {
    forall e, f | e in events && f in events && IsObservation(e) && IsObservation(f) && KeyOf(e) == KeyOf(f) ::
      KeyOf(e) !in db.observations ==> e.traceId == f.traceId
  }

  /** Each trace that a trace_create opens has one that sends its timestamp. */
  predicate TimestampsSent(db: Db, events: seq<Event>) {
    forall k | k in Known(events) && k !in db.traces :: SendsTimestamp(events, k)
  }

  predicate SendsTimestamp(events: seq<Event>, k: Key) {
    exists e :: e in events && e.TraceCreate? && KeyOf(e) == k && Timestamp in e.body
  }

  // --- the same writes, in another order ------------------------------------------------------

  lemma {:induction false} InTraceMerges(events: seq<Event>, now: int, w: Write)
    ensures w in TraceMerges(events, now) <==> exists e :: e in events && e.TraceCreate? && w == TraceMerge(e, now)
  {
    hide TraceMerge;
    if events != [] {
      InTraceMerges(events[..|events| - 1], now, w);
      assert events == events[..|events| - 1] + [events[|events| - 1]];
    }
  }

  lemma {:induction false} InCreateMerges(events: seq<Event>, now: int, w: Write)
    ensures w in CreateMerges(events, now) <==>
            exists e :: e in events && e.ObservationCreate? && w == CreateMerge(e, now)
  {
    hide CreateMerge;
    if events != [] {
      InCreateMerges(events[..|events| - 1], now, w);
      assert events == events[..|events| - 1] + [events[|events| - 1]];
    }
  }

  lemma {:induction false} InUpdatePatches(events: seq<Event>, now: int, w: Write)
    ensures w in UpdatePatches(events, now) <==>
            exists e :: e in events && e.ObservationUpdate? && w == UpdatePatch(e, now)
  {
    hide UpdatePatch;
    if events != [] {
      InUpdatePatches(events[..|events| - 1], now, w);
      assert events == events[..|events| - 1] + [events[|events| - 1]];
    }
  }

  lemma {:induction false} InObservationSteps(events: seq<Event>, now: int, w: Write)
    ensures w in ObservationSteps(CallsOf(events, now)) <==>
            w in CreateMerges(events, now) || w in UpdatePatches(events, now)
  {
    hide ObservationRow;
    if events != [] {
      InObservationSteps(events[..|events| - 1], now, w);
      CallsInit(events, now);
    }
  }

  /** `w` is the stub insert of some observation among the events. */
  predicate Stubs(events: seq<Event>, now: int, w: Write) {
    exists e :: e in events && IsObservation(e) && w == Fill(TraceKeyOf(e), StubRow(now))
  }

  lemma StubsSnoc(init: seq<Event>, last: Event, now: int, w: Write)
    ensures Stubs(init + [last], now, w) <==>
            Stubs(init, now, w) || (IsObservation(last) && w == Fill(TraceKeyOf(last), StubRow(now)))
  {
    hide StubRow;
    if Stubs(init, now, w) {
      var e :| e in init && IsObservation(e) && w == Fill(TraceKeyOf(e), StubRow(now));
      assert e in init + [last];
    }
    assert last in init + [last];
  }

  lemma {:induction false} InTraceSteps(events: seq<Event>, now: int, w: Write)
    ensures w in TraceSteps(CallsOf(events, now)) <==> w in TraceMerges(events, now) || Stubs(events, now, w)
  {
    hide TraceMerge, StubRow, Stubs;
    if events == [] {
      assert !Stubs([], now, w) by { NoEventsNoStubs(now, w); }
    } else {
      var init, last := events[..|events| - 1], events[|events| - 1];
      InTraceSteps(init, now, w);
      CallsInit(events, now);
      StubsSnoc(init, last, now, w);
      assert events == init + [last];
    }
  }

  lemma NoEventsNoStubs(now: int, w: Write)
    ensures !Stubs([], now, w)
  {
  }

  lemma {:induction false} SameScores(events: seq<Event>, now: int)
    ensures ScoreSteps(CallsOf(events, now)) == ScoreRows(events, now)
  {
    hide ScoreRow;
    if events != [] {
      SameScores(events[..|events| - 1], now);
      CallsInit(events, now);
    }
  }

  lemma InObservationWrites(events: seq<Event>, now: int, w: Write)
    ensures w in ObservationWrites(events, now) <==> w in ObservationSteps(CallsOf(events, now))
  {
    hide ObservationRow;
    AreMerges(events, now);
    GroupingKeepsRows(CreateMerges(events, now), w);
    InObservationSteps(events, now, w);
  }

  // --- observations ------------------------------------------------------------------------------

  /** A column no event writes holds this in every row the events propose. */
  function UnwrittenValue(traceId: string, now: int, c: Column): Value {
    match c
    case TraceId => Text(traceId)
    case CreatedAt => Time(now)
    case Level => Text("DEFAULT")
    case _ => Null
  }

  function StepOf(e: Event, now: int): Write
    requires IsObservation(e)
  {
    if e.ObservationCreate? then CreateMerge(e, now) else UpdatePatch(e, now)
  }

  lemma UnwrittenInRow(e: Event, now: int, c: Column)
    requires IsObservation(e) && !Overwrites(StepOf(e, now), c) && c != Type && c != StartTime && c != UpdatedAt
    ensures ObservationRow(e, now)[c] == UnwrittenValue(e.traceId, now, c)
  {
    if Sends(e.body, c) {
      SentIsOverwritten(e, now, c);
    } else {
      PlaceholderIsUnwritten(e, now, c);
    }
  }

  lemma AlwaysUpdated(e: Event, now: int)
    requires IsObservation(e)
    ensures Overwrites(StepOf(e, now), UpdatedAt)
  {
  }

  lemma PlaceholderIsUnwritten(e: Event, now: int, c: Column)
    requires IsObservation(e) && !Sends(e.body, c) && c != Type && c != StartTime && c != UpdatedAt
    ensures ObservationValue(e, now, c) == UnwrittenValue(e.traceId, now, c)
  {
  }

  /** Only a create's null is sent without being written. */
  lemma SentIsOverwritten(e: Event, now: int, c: Column)
    requires IsObservation(e) && Sends(e.body, c) && !Overwrites(StepOf(e, now), c) && c != Type && c != StartTime
    ensures ObservationRow(e, now)[c] == Null && UnwrittenValue(e.traceId, now, c) == Null
  {
    assert c in ObservationFields(e.body);
    assert ObservationRow(e, now)[c] == ObservationValue(e, now, c);
    SentColumns(e.body, c);
  }

  lemma SentColumns(body: Body, c: Column)
    requires Sends(body, c)
    ensures c != TraceId && c != CreatedAt && c != UpdatedAt
    ensures c == Level ==> SentValue(body, c) != Null
  {
  }

  /** The event behind a write on the observations table. */
  lemma StepEvent(events: seq<Event>, now: int, w: Write) returns (e: Event)
    requires w in ObservationSteps(CallsOf(events, now))
    ensures e in events && IsObservation(e) && w == StepOf(e, now)
  {
    hide ObservationRow;
    InObservationSteps(events, now, w);
    InCreateMerges(events, now, w);
    InUpdatePatches(events, now, w);
    if w in CreateMerges(events, now) {
      e :| e in events && e.ObservationCreate? && w == CreateMerge(e, now);
    } else {
      e :| e in events && e.ObservationUpdate? && w == UpdatePatch(e, now);
    }
  }

  predicate HasCreate(events: seq<Event>, k: Key) {
    exists e :: e in events && e.ObservationCreate? && KeyOf(e) == k
  }

  /** Without a create, the updates of an observation run in stream order either way. */
  lemma {:induction false} UpdatesKeepOrder(events: seq<Event>, now: int, k: Key)
    requires !HasCreate(events, k)
    ensures FirstProposed(ObservationSteps(CallsOf(events, now)), k) == FirstProposed(UpdatePatches(events, now), k)
  {
    hide ObservationRow;
    if events != [] {
      var init, last := events[..|events| - 1], events[|events| - 1];
      assert events == init + [last];
      UpdatesKeepOrder(init, now, k);
      CallsInit(events, now);
      FirstProposedConcat(ObservationSteps(CallsOf(init, now)), ObservationStep(Call(last, now)), k);
      FirstProposedConcat(UpdatePatches(init, now), PartsOf(last, now).patches, k);
      if last.ObservationCreate? {
        assert KeyOf(last) != k;
        FirstProposedFrom(ObservationStep(Call(last, now)), k);
      }
    }
  }

  lemma BatchUpdatesFirst(events: seq<Event>, now: int, k: Key)
    requires !HasCreate(events, k)
    ensures FirstProposed(ObservationWrites(events, now), k) == FirstProposed(UpdatePatches(events, now), k)
  {
    hide ObservationRow;
    AreMerges(events, now);
    var creates := Flat(Grouped(CreateMerges(events, now)));
    FirstProposedConcat(creates, UpdatePatches(events, now), k);
    FirstProposedFrom(creates, k);
    forall w | w in creates ensures w.key != k {
      GroupingKeepsRows(CreateMerges(events, now), w);
      InCreateMerges(events, now, w);
    }
  }

  lemma CheckedNotNull(r: Row)
    requires ObservationCheck(r)
    ensures r[Type] != Null && r[StartTime] != Null
  {
  }

  /** A create always sends its type and start_time. */
  lemma AcceptedCreateOverwrites(w: Write, e: Event, now: int, c: Column)
    requires e.ObservationCreate? && w == CreateMerge(e, now) && w.proposed[c] != Null && (c == Type || c == StartTime)
    ensures Overwrites(w, c)
  {
    var fields := ObservationFields(e.body).Keys;
    assert c in Updatable(fields + {Type, StartTime});
  }

  /** A create that is accepted settles type and start_time. */
  lemma CreateSettles(db: Db, events: seq<Event>, now: int, k: Key, c: Column)
    requires ExecAll(db.observations, ObservationWrites(events, now), ObservationCheck).Ok?
    requires HasCreate(events, k) && (c == Type || c == StartTime)
    ensures LastWritten(ObservationWrites(events, now), k, c).Some?
  {
    hide ObservationRow;
    var e :| e in events && e.ObservationCreate? && KeyOf(e) == k;
    var w, ws := CreateMerge(e, now), ObservationWrites(events, now);
    InCreateMerges(events, now, w);
    InObservationSteps(events, now, w);
    InObservationWrites(events, now, w);
    ProposedRowsPass(db.observations, ws, ObservationCheck, w);
    CheckedNotNull(w.proposed);
    AcceptedCreateOverwrites(w, e, now, c);
    WrittenBySome(ws, w, c);
  }

  /** The row an observation starts from agrees on every column that is never written. */
  lemma SameBase(db: Db, events: seq<Event>, now: int, k: Key, c: Column)
    requires ExecAll(db.observations, ObservationWrites(events, now), ObservationCheck).Ok?
    requires OneTraceEach(db, events) && k !in db.observations
    requires LastWritten(ObservationWrites(events, now), k, c).None?
    requires LastWritten(ObservationSteps(CallsOf(events, now)), k, c).None?
    requires FirstProposed(ObservationWrites(events, now), k).Some?
    requires FirstProposed(ObservationSteps(CallsOf(events, now)), k).Some?
    ensures FirstProposed(ObservationWrites(events, now), k).value[c] ==
            FirstProposed(ObservationSteps(CallsOf(events, now)), k).value[c]
  {
    hide ObservationRow;
    var batch, stream := ObservationWrites(events, now), ObservationSteps(CallsOf(events, now));
    if !HasCreate(events, k) {
      UpdatesKeepOrder(events, now, k);
      BatchUpdatesFirst(events, now, k);
    } else if c == Type || c == StartTime {
      CreateSettles(db, events, now, k, c);
      assert false;
    } else if c == UpdatedAt {
      FirstProposedFrom(batch, k);
      LastWrittenFrom(batch, k, c);
      var v :| v in batch && v.key == k;
      InObservationWrites(events, now, v);
      var e := StepEvent(events, now, v);
      AlwaysUpdated(e, now);
      assert false;
    } else {
      FirstProposedFrom(batch, k);
      FirstProposedFrom(stream, k);
      LastWrittenFrom(batch, k, c);
      LastWrittenFrom(stream, k, c);
      var v :| v in batch && v.key == k && v.proposed == FirstProposed(batch, k).value;
      var w :| w in stream && w.key == k && w.proposed == FirstProposed(stream, k).value;
      InObservationWrites(events, now, v);
      var e := StepEvent(events, now, v);
      var f := StepEvent(events, now, w);
      UnwrittenInRow(e, now, c);
      UnwrittenInRow(f, now, c);
    }
  }

  lemma SameObservations(db: Db, events: seq<Event>, now: int, k: Key)
    requires ExecAll(db.observations, ObservationWrites(events, now), ObservationCheck).Ok?
    requires NoClash(events, now) && OneTraceEach(db, events)
    ensures var x := ApplyAll(db.observations, ObservationWrites(events, now));
            var y := ApplyAll(db.observations, ObservationSteps(CallsOf(events, now)));
            (k in x <==> k in y) && (k in x ==> x[k] == y[k])
  {
    hide ObservationRow;
    var batch, stream := ObservationWrites(events, now), ObservationSteps(CallsOf(events, now));
    forall w ensures w in batch <==> w in stream { InObservationWrites(events, now, w); }
    FirstProposedFrom(batch, k);
    FirstProposedFrom(stream, k);
    if k !in db.observations && FirstProposed(batch, k).Some? {
      forall c | LastWritten(stream, k, c).None?
        ensures FirstProposed(batch, k).value[c] == FirstProposed(stream, k).value[c]
      {
        OrderFree(stream, batch, k, c);
        SameBase(db, events, now, k, c);
      }
    }
    SameRow(db.observations, stream, batch, k);
  }

  // --- traces -----------------------------------------------------------------------------------

  /** A trace_create proposes what a stub does in every column it does not send, the
      timestamp apart. */
  lemma UnsentInTrace(e: Event, now: int, c: Column)
    requires e.TraceCreate? && !Overwrites(TraceMerge(e, now), c) && c != Timestamp
    ensures TraceRow(e, now)[c] == StubRow(now)[c]
  {
  }

  /** In stream order, too, a trace starts out as a stub would in the columns never written. */
  lemma TraceBase(events: seq<Event>, now: int, ws: seq<Write>, k: Key, c: Column)
    requires forall w :: w in ws ==> w in TraceSteps(CallsOf(events, now))
    requires FirstProposed(ws, k).Some? && LastWritten(TraceSteps(CallsOf(events, now)), k, c).None?
    requires c == Timestamp ==> k !in Known(events)
    ensures FirstProposed(ws, k).value[c] == StubRow(now)[c]
  {
    hide TraceRow, StubRow;
    FirstProposedFrom(ws, k);
    var w :| w in ws && w.key == k && w.proposed == FirstProposed(ws, k).value;
    InTraceSteps(events, now, w);
    InTraceMerges(events, now, w);
    LastWrittenFrom(TraceSteps(CallsOf(events, now)), k, c);
    if w in TraceMerges(events, now) {
      var e :| e in events && e.TraceCreate? && w == TraceMerge(e, now);
      assert KeyOf(e) in Known(events);
      UnsentInTrace(e, now, c);
    }
  }

  lemma InTraceWrites(events: seq<Event>, now: int, w: Write)
    ensures w in TraceWrites(events, now) <==> w in TraceMerges(events, now)
  {
    hide TraceRow;
    AreMerges(events, now);
    GroupingKeepsRows(TraceMerges(events, now), w);
  }

  lemma KnownIsMerged(events: seq<Event>, now: int, k: Key)
    ensures k in Known(events) <==> FirstProposed(TraceWrites(events, now), k).Some?
  {
    hide TraceRow;
    var ws := TraceWrites(events, now);
    FirstProposedFrom(ws, k);
    if k in Known(events) {
      var e :| e in events && e.TraceCreate? && KeyOf(e) == k;
      InTraceMerges(events, now, TraceMerge(e, now));
      InTraceWrites(events, now, TraceMerge(e, now));
    } else {
      forall w | w in ws ensures w.key != k {
        InTraceWrites(events, now, w);
        InTraceMerges(events, now, w);
      }
    }
  }

  lemma NamedInStream(events: seq<Event>, now: int, k: Key)
    ensures FirstProposed(TraceSteps(CallsOf(events, now)), k).Some? <==> k in Known(events) || k in Referenced(events)
  {
    hide TraceRow, StubRow;
    var ws := TraceSteps(CallsOf(events, now));
    FirstProposedFrom(ws, k);
    if k in Known(events) {
      var e :| e in events && e.TraceCreate? && KeyOf(e) == k;
      InTraceMerges(events, now, TraceMerge(e, now));
      InTraceSteps(events, now, TraceMerge(e, now));
    } else if k in Referenced(events) {
      var e :| e in events && IsObservation(e) && TraceKeyOf(e) == k;
      InTraceSteps(events, now, Fill(k, StubRow(now)));
    } else {
      forall w | w in ws ensures w.key != k {
        InTraceSteps(events, now, w);
        InTraceMerges(events, now, w);
      }
    }
  }

  lemma SentTimestampOverwrites(e: Event, now: int)
    requires e.TraceCreate? && Timestamp in e.body
    ensures Overwrites(TraceMerge(e, now), Timestamp)
  {
  }

  lemma TimestampMerge(db: Db, events: seq<Event>, now: int, k: Key) returns (w: Write)
    requires TimestampsSent(db, events) && k in Known(events) && k !in db.traces
    ensures w in TraceMerges(events, now) && w.key == k && Overwrites(w, Timestamp)
  {
    hide TraceRow;
    assert SendsTimestamp(events, k);
    var e :| e in events && e.TraceCreate? && KeyOf(e) == k && Timestamp in e.body;
    w := TraceMerge(e, now);
    InTraceMerges(events, now, w);
    SentTimestampOverwrites(e, now);
  }

  /** A sent timestamp is written. */
  lemma TimestampWritten(db: Db, events: seq<Event>, now: int, k: Key)
    requires TimestampsSent(db, events) && k in Known(events) && k !in db.traces
    ensures LastWritten(TraceSteps(CallsOf(events, now)), k, Timestamp).Some?
  {
    hide TraceRow;
    var w := TimestampMerge(db, events, now, k);
    InTraceSteps(events, now, w);
    WrittenBySome(TraceSteps(CallsOf(events, now)), w, Timestamp);
  }

  lemma TraceWritesInStream(events: seq<Event>, now: int, w: Write)
    ensures w in TraceWrites(events, now) ==> w in TraceSteps(CallsOf(events, now))
    ensures !w.Fill? ==> (w in TraceWrites(events, now) <==> w in TraceSteps(CallsOf(events, now)))
  {
    hide TraceRow, StubRow;
    InTraceWrites(events, now, w);
    InTraceSteps(events, now, w);
  }

  lemma SameTraceBase(events: seq<Event>, now: int, xs: seq<Write>, ys: seq<Write>, k: Key, c: Column)
    requires forall w :: w in xs || w in ys ==> w in TraceSteps(CallsOf(events, now))
    requires FirstProposed(xs, k).Some? && FirstProposed(ys, k).Some?
    requires LastWritten(TraceSteps(CallsOf(events, now)), k, c).None? && c != Timestamp
    ensures FirstProposed(xs, k).value[c] == FirstProposed(ys, k).value[c]
  {
    hide StubRow;
    TraceBase(events, now, xs, k, c);
    TraceBase(events, now, ys, k, c);
  }

  /** A trace some trace_create names. */
  lemma SameKnownTrace(db: Db, events: seq<Event>, now: int, k: Key, batch: seq<Write>, stream: seq<Write>)
    requires NoClash(events, now) && TimestampsSent(db, events) && k in Known(events)
    requires batch == TraceWrites(events, now) && stream == TraceSteps(CallsOf(events, now))
    ensures var x, y := ApplyAll(db.traces, batch), ApplyAll(db.traces, stream);
            k in x && k in y && x[k] == y[k]
  {
    hide TraceRow, StubRow;
    KnownIsMerged(events, now, k);
    NamedInStream(events, now, k);
    forall w: Write
      ensures w in batch ==> w in stream
      ensures !w.Fill? ==> (w in batch <==> w in stream)
    {
      TraceWritesInStream(events, now, w);
    }
    if k !in db.traces {
      TimestampWritten(db, events, now, k);
      forall c | LastWritten(stream, k, c).None?
        ensures FirstProposed(batch, k).value[c] == FirstProposed(stream, k).value[c]
      {
        SameTraceBase(events, now, batch, stream, k, c);
      }
    }
    SameRow(db.traces, stream, batch, k);
    CellAfter(db.traces, stream, k);
  }

  /** A trace that only observations refer to. */
  lemma SameStub(db: Db, events: seq<Event>, now: int, k: Key)
    requires k !in Known(events)
    ensures var x := AddStubs(ApplyAll(db.traces, TraceWrites(events, now)), Referenced(events) - Known(events), now);
            var y := ApplyAll(db.traces, TraceSteps(CallsOf(events, now)));
            (k in x <==> k in y) && (k in x ==> x[k] == y[k])
  {
    hide TraceRow, StubRow;
    var batch, stream := TraceWrites(events, now), TraceSteps(CallsOf(events, now));
    KnownIsMerged(events, now, k);
    NamedInStream(events, now, k);
    NothingWritten(batch, k);
    CellAfter(db.traces, batch, k);
    CellAfter(db.traces, stream, k);
    forall c ensures LastWritten(stream, k, c).None? { OnlyStubs(events, now, k, c); }
    if k in db.traces {
      SameCells(ApplyAll(db.traces, batch)[k], db.traces[k]);
      SameCells(ApplyAll(db.traces, stream)[k], db.traces[k]);
    } else if k in Referenced(events) {
      forall c ensures FirstProposed(stream, k).value[c] == StubRow(now)[c] { TraceBase(events, now, stream, k, c); }
      SameCells(ApplyAll(db.traces, stream)[k], StubRow(now));
    }
  }

  lemma OnlyStubs(events: seq<Event>, now: int, k: Key, c: Column)
    requires k !in Known(events)
    ensures LastWritten(TraceSteps(CallsOf(events, now)), k, c).None?
  {
    hide TraceRow, StubRow;
    var stream := TraceSteps(CallsOf(events, now));
    LastWrittenFrom(stream, k, c);
    if LastWritten(stream, k, c).Some? {
      var w :| w in stream && w.key == k && Overwrites(w, c);
      InTraceSteps(events, now, w);
      InTraceMerges(events, now, w);
      assert false;
    }
  }

  lemma SameTraces(db: Db, events: seq<Event>, now: int)
    requires NoClash(events, now) && TimestampsSent(db, events)
    ensures AddStubs(ApplyAll(db.traces, TraceWrites(events, now)), Referenced(events) - Known(events), now) ==
            ApplyAll(db.traces, TraceSteps(CallsOf(events, now)))
  {
    hide TraceRow, StubRow;
    var merged := ApplyAll(db.traces, TraceWrites(events, now));
    var x := AddStubs(merged, Referenced(events) - Known(events), now);
    var y := ApplyAll(db.traces, TraceSteps(CallsOf(events, now)));
    forall k
      ensures k in x <==> k in y
      ensures k in x ==> x[k] == y[k]
    {
      if k in Known(events) {
        SameKnownTrace(db, events, now, k, TraceWrites(events, now), TraceSteps(CallsOf(events, now)));
      } else {
        SameStub(db, events, now, k);
      }
    }
  }

  lemma SameObservationTables(db: Db, events: seq<Event>, now: int)
    requires ExecAll(db.observations, ObservationWrites(events, now), ObservationCheck).Ok?
    requires NoClash(events, now) && OneTraceEach(db, events)
    ensures ApplyAll(db.observations, ObservationWrites(events, now)) ==
            ApplyAll(db.observations, ObservationSteps(CallsOf(events, now)))
  {
    hide ObservationRow;
    var x := ApplyAll(db.observations, ObservationWrites(events, now));
    var y := ApplyAll(db.observations, ObservationSteps(CallsOf(events, now)));
    forall k
      ensures k in x <==> k in y
      ensures k in x ==> x[k] == y[k]
    {
      SameObservations(db, events, now, k);
    }
  }

  /** An accepted batch, table by table. */
  lemma BatchByTable(db: Db, events: seq<Event>, now: int)
    requires ApplyEvents(db, events, now, None).Ok?
    ensures ExecAll(db.observations, ObservationWrites(events, now), ObservationCheck).Ok?
    ensures var out := ApplyEvents(db, events, now, None).value;
            && out.traces == AddStubs(ApplyAll(db.traces, TraceWrites(events, now)), Referenced(events) - Known(events), now)
            && out.observations == ApplyAll(db.observations, ObservationWrites(events, now))
            && Ok(out.scores) == InsertScores(db.scores, ScoreRows(events, now))
  {
    hide ObservationRow, TraceRow, StubRow;
    ExecAllApplies(db.traces, TraceWrites(events, now), TraceCheck);
    ExecAllApplies(db.observations, ObservationWrites(events, now), ObservationCheck);
  }

  /** Batch refinement. Whenever the batch and the single-event calls are both accepted,
      they leave the same tables. */
  lemma BatchRefinesSingleCalls(db: Db, events: seq<Event>, now: int)
    requires NoClash(events, now) && OneTraceEach(db, events) && TimestampsSent(db, events)
    requires ApplyEvents(db, events, now, None).Ok? && Fold(db, CallsOf(events, now)).Ok?
    ensures ApplyEvents(db, events, now, None) == Fold(db, CallsOf(events, now))
  {
    hide ObservationRow, TraceRow, StubRow;
    BatchByTable(db, events, now);
    FoldByTable(db, CallsOf(events, now));
    SameScores(events, now);
    SameObservationTables(db, events, now);
    SameTraces(db, events, now);
  }
}
