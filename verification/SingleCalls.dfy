/** Folding events one per `apply_events` call, each in its own transaction: the
    reference against which batches, permutations and merges are stated. */
module SingleCalls {
  import opened Tables
  import opened Events
  import opened Pricing
  import opened Ingest

  /** One call with one event, at the clock `now`. */
  datatype Call = Call(event: Event, now: int)

  /** Every call in order; an error when any of them fails. Pricing is off. */
  function Fold(db: Db, calls: seq<Call>): Result<Db> {
    if calls == [] then Ok(db)
    else
      match Fold(db, calls[..|calls| - 1])
      case Err => Err
      case Ok(d) => ApplyEvents(d, [calls[|calls| - 1].event], calls[|calls| - 1].now, None)
  }

  // --- what one call does to each table -------------------------------------------------

  /** A trace_create merges; an observation fills the gap of a trace that is not there. */
  function TraceStep(c: Call): seq<Write> {
    match c.event
    case TraceCreate(_, _, _, _) => [TraceMerge(c.event, c.now)]
    case ObservationCreate(_, _, _, _, _) => [Fill(TraceKeyOf(c.event), StubRow(c.now))]
    case ObservationUpdate(_, _, _, _, _) => [Fill(TraceKeyOf(c.event), StubRow(c.now))]
    case _ => []
  }

  function ObservationStep(c: Call): seq<Write> {
    PartsOf(c.event, c.now).creates + PartsOf(c.event, c.now).patches
  }

  function TraceSteps(calls: seq<Call>): seq<Write> {
    if calls == [] then [] else TraceSteps(calls[..|calls| - 1]) + TraceStep(calls[|calls| - 1])
  }

  function ObservationSteps(calls: seq<Call>): seq<Write> {
    if calls == [] then [] else ObservationSteps(calls[..|calls| - 1]) + ObservationStep(calls[|calls| - 1])
  }

  function ScoreSteps(calls: seq<Call>): seq<(Key, Score)> {
    if calls == [] then []
    else ScoreSteps(calls[..|calls| - 1]) + PartsOf(calls[|calls| - 1].event, calls[|calls| - 1].now).scores
  }

  lemma PartsOfOne(e: Event, now: int)
    ensures TraceMerges([e], now) == PartsOf(e, now).traces && CreateMerges([e], now) == PartsOf(e, now).creates
    ensures UpdatePatches([e], now) == PartsOf(e, now).patches && ScoreRows([e], now) == PartsOf(e, now).scores
  {
    hide TraceRow, ObservationRow;
    assert [e][..0] == [];
    assert TraceMerges([], now) == [] && CreateMerges([], now) == [];
    assert UpdatePatches([], now) == [] && ScoreRows([], now) == [];
  }

  lemma GroupedOne(ws: seq<Write>)
    requires AllMerges(ws) && |ws| <= 1
    ensures Flat(Grouped(ws)) == ws
  {
    if |ws| == 1 {
      assert ws[..0] == [];
      assert Grouped(ws) == [Group(ws[0].sent, [ws[0]])];
      assert Grouped(ws)[..0] == [];
    }
  }

  lemma ApplyOne(table: Table, w: Write)
    ensures ApplyAll(table, [w]) == Apply(table, w)
  {
    assert [w][..0] == [];
  }

  /** The stub of one observation is a DO NOTHING insert. */
  lemma StubIsFill(traces: Table, k: Key, now: int)
    ensures AddStubs(traces, {k}, now) == ApplyAll(traces, [Fill(k, StubRow(now))])
  {
    hide StubRow;
    ApplyOne(traces, Fill(k, StubRow(now)));
    var filled := Apply(traces, Fill(k, StubRow(now)));
    if k in traces {
      assert Combine(Fill(k, StubRow(now)), traces[k]) == traces[k];
    }
    assert AddStubs(traces, {k}, now) == filled;
  }

  lemma NoStubs(traces: Table, now: int)
    ensures AddStubs(traces, {}, now) == traces
  {
    assert traces.Keys + {} == traces.Keys;
  }

  lemma OneReferenced(e: Event)
    ensures Referenced([e]) - Known([e]) == if IsObservation(e) then {TraceKeyOf(e)} else {}
  {
    assert e in [e];
  }

  lemma OneTraceList(c: Call)
    ensures TraceWrites([c.event], c.now) == PartsOf(c.event, c.now).traces
  {
    hide TraceRow, ObservationRow;
    PartsOfOne(c.event, c.now);
    AreMerges([c.event], c.now);
    GroupedOne(TraceMerges([c.event], c.now));
  }

  lemma OneTraces(db: Db, c: Call)
    requires Written(db, [c.event], c.now).Ok?
    ensures Written(db, [c.event], c.now).value.traces == ApplyAll(db.traces, TraceStep(c))
  {
    hide TraceMerge, StubRow, CreateMerge, UpdatePatch, Grouped, Flat;
    var e := c.event;
    OneTraceList(c);
    var merges := PartsOf(e, c.now).traces;
    ExecAllApplies(db.traces, merges, TraceCheck);
    OneReferenced(e);
    if IsObservation(e) {
      assert merges == [];
      StubIsFill(db.traces, TraceKeyOf(e), c.now);
    } else {
      NoStubs(ApplyAll(db.traces, merges), c.now);
    }
  }

  /** One accepted call applies its steps to each table. */
  lemma OneCall(db: Db, c: Call)
    requires ApplyEvents(db, [c.event], c.now, None).Ok?
    ensures var out := ApplyEvents(db, [c.event], c.now, None).value;
            && out.traces == ApplyAll(db.traces, TraceStep(c))
            && out.observations == ApplyAll(db.observations, ObservationStep(c))
            && Ok(out.scores) == InsertScores(db.scores, PartsOf(c.event, c.now).scores)
  {
    hide TraceRow, StubRow, ObservationRow;
    OneTraces(db, c);
    PartsOfOne(c.event, c.now);
    AreMerges([c.event], c.now);
    GroupedOne(CreateMerges([c.event], c.now));
    ExecAllApplies(db.observations, ObservationWrites([c.event], c.now), ObservationCheck);
  }

  lemma {:induction false} InsertScoresConcat(scores: map<Key, Score>, xs: seq<(Key, Score)>, ys: seq<(Key, Score)>)
    ensures InsertScores(scores, xs + ys) ==
            match InsertScores(scores, xs)
            case Err => Err
            case Ok(s) => InsertScores(s, ys)
  {
    if ys == [] {
      assert xs + ys == xs;
    } else {
      var init := ys[..|ys| - 1];
      assert (xs + ys)[..|xs + ys| - 1] == xs + init;
      InsertScoresConcat(scores, xs, init);
    }
  }

  /** Folding accepted calls applies all their steps, table by table. */
  lemma {:induction false} FoldByTable(db: Db, calls: seq<Call>)
    requires Fold(db, calls).Ok?
    ensures Fold(db, calls).value.traces == ApplyAll(db.traces, TraceSteps(calls))
    ensures Fold(db, calls).value.observations == ApplyAll(db.observations, ObservationSteps(calls))
    ensures Ok(Fold(db, calls).value.scores) == InsertScores(db.scores, ScoreSteps(calls))
  {
    hide TraceRow, StubRow, ObservationRow;
    if calls != [] {
      var init, last := calls[..|calls| - 1], calls[|calls| - 1];
      FoldByTable(db, init);
      OneCall(Fold(db, init).value, last);
      ApplyAllConcat(db.traces, TraceSteps(init), TraceStep(last));
      ApplyAllConcat(db.observations, ObservationSteps(init), ObservationStep(last));
      InsertScoresConcat(db.scores, ScoreSteps(init), PartsOf(last.event, last.now).scores);
    }
  }

  // --- runs in which some calls fail --------------------------------------------------------

  /** A failed call is rolled back and leaves the tables as they were. */
  function Run(db: Db, calls: seq<Call>): Db {
    if calls == [] then db
    else
      var d := Run(db, calls[..|calls| - 1]);
      match ApplyEvents(d, [calls[|calls| - 1].event], calls[|calls| - 1].now, None)
      case Err => d
      case Ok(out) => out
  }

  /** The calls of a run that are accepted where they run. */
  function Accepted(db: Db, calls: seq<Call>): seq<Call> {
    if calls == [] then []
    else
      var init, last := calls[..|calls| - 1], calls[|calls| - 1];
      Accepted(db, init) + if ApplyEvents(Run(db, init), [last.event], last.now, None).Ok? then [last] else []
  }

  lemma {:induction false} RunFoldsAccepted(db: Db, calls: seq<Call>)
    ensures Fold(db, Accepted(db, calls)) == Ok(Run(db, calls))
  {
    hide TraceRow, StubRow, ObservationRow;
    if calls != [] {
      var init, last := calls[..|calls| - 1], calls[|calls| - 1];
      RunFoldsAccepted(db, init);
      if ApplyEvents(Run(db, init), [last.event], last.now, None).Ok? {
        assert (Accepted(db, init) + [last])[..|Accepted(db, init)|] == Accepted(db, init);
      } else {
        assert Accepted(db, init) + [] == Accepted(db, init);
      }
    }
  }

  // --- the trace merge is "last non-null writer" ---------------------------------------------

  /** The value a trace_create sends for a column of its trace. A timestamp that does not
      parse is replaced by the event's own stamp; a sent null is no value. */
  function SentForTrace(c: Call, k: Key, col: Column): Option<Value> {
    var e := c.event;
    if !e.TraceCreate? || KeyOf(e) != k || col !in TRACE_COLUMNS || col !in e.body then None
    else
      match col
      case CreatedAt | UpdatedAt => None
      case Timestamp => Some(if e.body[col].Time? then e.body[col] else Stamp(e, c.now))
      case IsExperiment => Some(Flag(Truthy(e.body[col])))
      case _ => if e.body[col] == Null then None else Some(e.body[col])
  }

  function LastSentForTrace(calls: seq<Call>, k: Key, col: Column): Option<Value> {
    if calls == [] then None
    else if SentForTrace(calls[|calls| - 1], k, col).Some? then SentForTrace(calls[|calls| - 1], k, col)
    else LastSentForTrace(calls[..|calls| - 1], k, col)
  }

  predicate Names(c: Call, k: Key) {
    (c.event.TraceCreate? && KeyOf(c.event) == k) || (IsObservation(c.event) && TraceKeyOf(c.event) == k)
  }

  /** The row the first call that names trace `k` inserts: its own, or a stub. */
  function FirstTraceRow(calls: seq<Call>, k: Key): Option<Row> {
    if calls == [] then None
    else
      match FirstTraceRow(calls[..|calls| - 1], k)
      case Some(r) => Some(r)
      case None =>
        var c := calls[|calls| - 1];
        if !Names(c, k) then None
        else Some(if c.event.TraceCreate? then TraceRow(c.event, c.now) else StubRow(c.now))
  }

  /** A trace_create overwrites exactly the columns it sends a value for. */
  lemma MergeTellsSent(c: Call, col: Column)
    requires c.event.TraceCreate? && col != UpdatedAt
    ensures Overwrites(TraceMerge(c.event, c.now), col) <==> SentForTrace(c, KeyOf(c.event), col).Some?
    ensures Overwrites(TraceMerge(c.event, c.now), col) ==>
              SentForTrace(c, KeyOf(c.event), col) == Some(TraceMerge(c.event, c.now).proposed[col])
  {
  }

  /** What a call's step on `traces` says about trace `k`. */
  lemma StepTellsSent(c: Call, k: Key, col: Column)
    requires col != UpdatedAt
    ensures |TraceStep(c)| <= 1
    ensures TraceStep(c) == [] ==> !Names(c, k) && SentForTrace(c, k, col).None?
    ensures TraceStep(c) != [] ==>
              var w := TraceStep(c)[0];
              && (w.key == k <==> Names(c, k))
              && SentForTrace(c, k, col) == (if w.key == k && Overwrites(w, col) then Some(w.proposed[col]) else None)
  {
    hide TraceRow, StubRow;
    if c.event.TraceCreate? {
      MergeTellsSent(c, col);
    }
  }

  lemma {:induction false} LastSentIsLastWritten(calls: seq<Call>, k: Key, col: Column)
    requires col != UpdatedAt
    ensures LastWritten(TraceSteps(calls), k, col) == LastSentForTrace(calls, k, col)
  {
    hide TraceRow, StubRow;
    if calls != [] {
      var init, step := calls[..|calls| - 1], TraceStep(calls[|calls| - 1]);
      LastSentIsLastWritten(init, k, col);
      StepTellsSent(calls[|calls| - 1], k, col);
      if step == [] {
        assert TraceSteps(calls) == TraceSteps(init);
      } else {
        assert step == [step[0]];
        Snoc(TraceSteps(init), step[0], k);
      }
    }
  }

  lemma {:induction false} FirstRowIsFirstProposed(calls: seq<Call>, k: Key)
    ensures FirstProposed(TraceSteps(calls), k) == FirstTraceRow(calls, k)
  {
    hide TraceRow, StubRow;
    if calls != [] {
      var init, step := calls[..|calls| - 1], TraceStep(calls[|calls| - 1]);
      FirstRowIsFirstProposed(init, k);
      if step == [] {
        assert TraceSteps(calls) == TraceSteps(init);
      } else {
        assert step == [step[0]];
        Snoc(TraceSteps(init), step[0], k);
      }
    }
  }

  /** Over any run of single-event calls, failures included, a trace that was not there
      before ends with each column equal to the last value an accepted event sent for it,
      or else to what the first accepted event that named the trace put there. */
  lemma LastWriterWins(db: Db, calls: seq<Call>, k: Key, col: Column)
    requires k !in db.traces && col != UpdatedAt
    ensures k in Run(db, calls).traces <==> FirstTraceRow(Accepted(db, calls), k).Some?
    ensures k in Run(db, calls).traces ==>
              Run(db, calls).traces[k][col] ==
              match LastSentForTrace(Accepted(db, calls), k, col)
              case Some(v) => v
              case None => FirstTraceRow(Accepted(db, calls), k).value[col]
  {
    hide TraceRow, StubRow;
    var accepted := Accepted(db, calls);
    RunFoldsAccepted(db, calls);
    FoldByTable(db, accepted);
    CellAfter(db.traces, TraceSteps(accepted), k);
    LastSentIsLastWritten(accepted, k, col);
    FirstRowIsFirstProposed(accepted, k);
  }
}
