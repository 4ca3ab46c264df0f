/** What every run of batches, rollbacks and re-costings keeps. */
module DbInvariants {
  import opened Tables
  import opened Events
  import opened Pricing
  import opened Ingest
  import opened BatchRefinement
  import opened SingleCalls

  /** One step of a run: a batch that commits or rolls back, or a re-costing of some rows. */
  datatype Action =
    | Batch(events: seq<Event>, now: int, prices: Option<Prices>, outage: bool)
    | Recost(keys: set<Key>, models: seq<ModelPrice>, regex: Regex)

  function Act(db: Db, a: Action): Db {
    match a
    case Batch(events, now, prices, outage) =>
      var r := ApplyEvents(db, events, now, prices);
      if outage || r.Err? then db else r.value
    case Recost(keys, models, regex) => db.(observations := ResolveAll(db.observations, keys, models, regex))
  }

  function RunActions(db: Db, actions: seq<Action>): Db {
    if actions == [] then db
    else Act(RunActions(db, actions[..|actions| - 1]), actions[|actions| - 1])
  }

  /** A batch that meets an outage or cannot be applied changes nothing, then or later: the run is
      what it would be without it. */
  lemma {:induction false} FailedBatchLeavesNothing(db: Db, before: seq<Action>, a: Action, after: seq<Action>)
    requires a.Batch? && (a.outage || ApplyEvents(RunActions(db, before), a.events, a.now, a.prices).Err?)
    ensures RunActions(db, before + [a] + after) == RunActions(db, before + after)
  {
    hide ApplyEvents;
    var with, without := before + [a] + after, before + after;
    if after == [] {
      assert with == before + [a] && without == before;
      assert with[..|before|] == before;
    } else {
      hide Act;
      var n := |after| - 1;
      FailedBatchLeavesNothing(db, before, a, after[..n]);
      assert with[..|with| - 1] == before + [a] + after[..n] && without[..|without| - 1] == before + after[..n];
    }
  }

  // --- referential completion without a foreign key ----------------------------------------

  predicate HasTrace(traces: Table, k: Key, row: Row) {
    row[TraceId].Text? && Key(k.project, row[TraceId].text) in traces
  }

  ghost predicate Referential(db: Db) {
    forall k :: k in db.observations ==> HasTrace(db.traces, k, db.observations[k])
  }

  lemma TraceIdNeverOverwritten(w: Write, e: Event, now: int)
    requires IsObservation(e) && w == StepOf(e, now)
    ensures !Overwrites(w, TraceId) && w.proposed[TraceId] == Text(e.traceId) && w.key == KeyOf(e)
  {
  }

  lemma BatchStepEvent(events: seq<Event>, now: int, w: Write) returns (e: Event)
    requires w in ObservationWrites(events, now)
    ensures e in events && IsObservation(e) && w == StepOf(e, now)
  {
    InObservationWrites(events, now, w);
    e := StepEvent(events, now, w);
  }

  lemma StepKey(e: Event, now: int)
    requires IsObservation(e)
    ensures StepOf(e, now).key == KeyOf(e)
  {
  }

  lemma CreateWritten(events: seq<Event>, now: int, e: Event)
    requires e in events && e.ObservationCreate?
    ensures StepOf(e, now) in ObservationWrites(events, now)
  {
    var w := StepOf(e, now);
    AreMerges(events, now);
    GroupingKeepsRows(CreateMerges(events, now), w);
    InCreateMerges(events, now, w);
  }

  lemma EventWritten(events: seq<Event>, now: int, e: Event)
    requires e in events && IsObservation(e)
    ensures StepOf(e, now) in ObservationWrites(events, now)
  {
    if e.ObservationCreate? {
      CreateWritten(events, now, e);
    } else {
      InUpdatePatches(events, now, StepOf(e, now));
      AreMerges(events, now);
    }
  }

  /** The trace_id of a row is the one it was first inserted with. */
  lemma TraceIdFixed(table: Table, events: seq<Event>, now: int, ws: seq<Write>, k: Key)
    requires ws == ObservationWrites(events, now) && k in ApplyAll(table, ws)
    ensures k in table ==> ApplyAll(table, ws)[k][TraceId] == table[k][TraceId]
    ensures k !in table ==> exists e :: e in events && IsObservation(e) && KeyOf(e) == k &&
                                        ApplyAll(table, ws)[k][TraceId] == Text(e.traceId)
  {
    CellAfter(table, ws, k);
    LastWrittenFrom(ws, k, TraceId);
    FirstProposedFrom(ws, k);
    forall w | w in ws ensures !Overwrites(w, TraceId) {
      var e := BatchStepEvent(events, now, w);
      TraceIdNeverOverwritten(w, e, now);
    }
    if k !in table {
      var w :| w in ws && w.key == k && w.proposed == FirstProposed(ws, k).value;
      var e := BatchStepEvent(events, now, w);
      TraceIdNeverOverwritten(w, e, now);
    }
  }

  lemma UntouchedTrace(traces: Table, ws: seq<Write>, k: Key)
    ensures k in ApplyAll(traces, ws) <==> k in traces || FirstProposed(ws, k).Some?
    ensures k in traces && FirstProposed(ws, k).None? ==> ApplyAll(traces, ws)[k] == traces[k]
  {
    CellAfter(traces, ws, k);
    if k in traces && FirstProposed(ws, k).None? {
      NothingWritten(ws, k);
      SameCells(ApplyAll(traces, ws)[k], traces[k]);
    }
  }

  lemma TraceAfterBatch(traces: Table, events: seq<Event>, now: int, ws: seq<Write>, after: Table, k: Key)
    requires ws == TraceWrites(events, now)
    requires after == AddStubs(ApplyAll(traces, ws), Referenced(events) - Known(events), now)
    ensures k in after <==> k in traces || k in Known(events) || k in Referenced(events)
    ensures k in traces && k !in Known(events) ==> after[k] == traces[k]
  {
    UntouchedTrace(traces, ws, k);
    KnownIsMerged(events, now, k);
  }

  /** A batch adds every trace it names and drops none; a trace that no trace_create of the
      batch names keeps its row, stub or no stub. */
  lemma TracesGrow(db: Db, events: seq<Event>, now: int, out: Db)
    requires ApplyEvents(db, events, now, None) == Ok(out)
    ensures forall k :: k in out.traces <==> k in db.traces || k in Known(events) || k in Referenced(events)
    ensures forall k :: k in db.traces && k !in Known(events) ==> out.traces[k] == db.traces[k]
  {
    BatchByTable(db, events, now);
    var ws := TraceWrites(events, now);
    forall k
      ensures k in out.traces <==> k in db.traces || k in Known(events) || k in Referenced(events)
      ensures k in db.traces && k !in Known(events) ==> out.traces[k] == db.traces[k]
    {
      TraceAfterBatch(db.traces, events, now, ws, out.traces, k);
    }
  }

  lemma BatchKeepsReferential(db: Db, events: seq<Event>, now: int)
    requires Referential(db) && ApplyEvents(db, events, now, None).Ok?
    ensures Referential(ApplyEvents(db, events, now, None).value)
  {
    TracesGrow(db, events, now, ApplyEvents(db, events, now, None).value);
    BatchByTable(db, events, now);
    var after := ApplyEvents(db, events, now, None).value;
    var ws := ObservationWrites(events, now);
    forall k | k in after.observations ensures HasTrace(after.traces, k, after.observations[k]) {
      TraceIdFixed(db.observations, events, now, ws, k);
      if k !in db.observations {
        var e :| e in events && IsObservation(e) && KeyOf(e) == k && after.observations[k][TraceId] == Text(e.traceId);
        assert TraceKeyOf(e) in Referenced(events);
      }
    }
  }

  lemma ResolvedKeeps(row: Row, project: string, models: seq<ModelPrice>, regex: Regex)
    ensures Resolved(row, project, models, regex)[TraceId] == row[TraceId]
    ensures Resolved(row, project, models, regex)[ProvidedCostDetails] == row[ProvidedCostDetails]
    ensures row[ProvidedCostDetails] != Null ==> Resolved(row, project, models, regex) == row
  {
  }

  lemma ResolveKeepsReferential(db: Db, keys: set<Key>, models: seq<ModelPrice>, regex: Regex)
    requires Referential(db)
    ensures Referential(db.(observations := ResolveAll(db.observations, keys, models, regex)))
  {
    forall k | k in db.observations
      ensures HasTrace(db.traces, k, ResolveAll(db.observations, keys, models, regex)[k])
    {
      ResolvedKeeps(db.observations[k], k.project, models, regex);
      assert HasTrace(db.traces, k, db.observations[k]);
    }
  }

  lemma ActKeepsReferential(db: Db, a: Action)
    requires Referential(db)
    ensures Referential(Act(db, a))
  {
    match a
    case Recost(keys, models, regex) =>
      ResolveKeepsReferential(db, keys, models, regex);
    case Batch(events, now, prices, outage) =>
      if !outage && ApplyEvents(db, events, now, prices).Ok? {
        BatchKeepsReferential(db, events, now);
        if prices.Some? {
          ResolveKeepsReferential(ApplyEvents(db, events, now, None).value, Touched(events),
                                  prices.value.models, prices.value.regex);
        }
      }
  }

  /** From empty tables, after any run, every observation's trace has a row. */
  lemma {:induction false} EveryObservationHasItsTrace(actions: seq<Action>)
    ensures Referential(RunActions(EMPTY, actions))
  {
    if actions != [] {
      EveryObservationHasItsTrace(actions[..|actions| - 1]);
      ActKeepsReferential(RunActions(EMPTY, actions[..|actions| - 1]), actions[|actions| - 1]);
    }
  }

  // --- a client's cost is never overwritten by a computed one ----------------------------------

  /** A row with a client cost shows that cost, and its sum as the total. */
  predicate ClientCostShown(row: Row) {
    row[ProvidedCostDetails] != Null ==>
      && row[ProvidedCostDetails].Costs?
      && row[CostDetails] == row[ProvidedCostDetails]
      && row[TotalCost] == Amount(SumCosts(row[ProvidedCostDetails].costs))
  }

  ghost predicate ClientCostsKept(observations: Table) {
    forall k :: k in observations ==> ClientCostShown(observations[k])
  }

  lemma CostColumns(e: Event, now: int)
    requires IsObservation(e) && CoercibleMaps(e.body)
    ensures var row, cost := ObservationRow(e, now), UsageOf(Get(e.body, CostDetails));
            && row[ProvidedCostDetails] == cost && row[CostDetails] == cost && row[TotalCost] == TotalOf(cost)
            && (cost == Null || (cost.Costs? && cost.costs != []))
  {
  }

  lemma CostColumnsSent(e: Event)
    requires IsObservation(e)
    ensures ProvidedCostDetails in ObservationFields(e.body) <==> CostDetails in e.body
    ensures CostDetails in ObservationFields(e.body) <==> CostDetails in e.body
    ensures TotalCost in ObservationFields(e.body) <==> CostDetails in e.body
  {
  }

  /** The three cost columns travel together: all overwritten or none. */
  lemma CostsTravelTogether(w: Write, e: Event, now: int)
    requires IsObservation(e) && Coercible(e.body) && w == StepOf(e, now)
    ensures ClientCostShown(w.proposed)
    ensures Overwrites(w, CostDetails) <==> Overwrites(w, ProvidedCostDetails)
    ensures Overwrites(w, TotalCost) <==> Overwrites(w, ProvidedCostDetails)
  {
    CostColumns(e, now);
    CostColumnsSent(e);
  }

  lemma WriteKeepsClientCosts(table: Table, w: Write, e: Event, now: int)
    requires ClientCostsKept(table)
    requires IsObservation(e) && Coercible(e.body) && w == StepOf(e, now)
    ensures ClientCostsKept(Apply(table, w))
  {
    CostsTravelTogether(w, e, now);
    LandedShowsCost(table, w);
  }

  lemma LandedShowsCost(table: Table, w: Write)
    requires ClientCostsKept(table) && ClientCostShown(w.proposed)
    requires Overwrites(w, CostDetails) <==> Overwrites(w, ProvidedCostDetails)
    requires Overwrites(w, TotalCost) <==> Overwrites(w, ProvidedCostDetails)
    ensures ClientCostsKept(Apply(table, w))
  {
  }

  lemma {:induction false} WritesKeepClientCosts(table: Table, ws: seq<Write>, events: seq<Event>, now: int)
    requires ClientCostsKept(table)
    requires forall e :: e in events ==> Buildable(e)
    requires forall w :: w in ws ==> w in ObservationWrites(events, now)
    ensures ClientCostsKept(ApplyAll(table, ws))
  {
    if ws != [] {
      var init, last := ws[..|ws| - 1], ws[|ws| - 1];
      assert ws == init + [last];
      WritesKeepClientCosts(table, init, events, now);
      var e := BatchStepEvent(events, now, last);
      WriteKeepsClientCosts(ApplyAll(table, init), last, e, now);
    }
  }

  lemma ResolveKeepsClientCosts(observations: Table, keys: set<Key>, models: seq<ModelPrice>, regex: Regex)
    requires ClientCostsKept(observations)
    ensures ClientCostsKept(ResolveAll(observations, keys, models, regex))
  {
    forall k | k in observations ensures ClientCostShown(ResolveAll(observations, keys, models, regex)[k]) {
      ResolvedKeeps(observations[k], k.project, models, regex);
    }
  }

  lemma ActKeepsClientCosts(db: Db, a: Action)
    requires ClientCostsKept(db.observations)
    ensures ClientCostsKept(Act(db, a).observations)
  {
    match a
    case Recost(keys, models, regex) =>
      ResolveKeepsClientCosts(db.observations, keys, models, regex);
    case Batch(events, now, prices, outage) =>
      if !outage && ApplyEvents(db, events, now, prices).Ok? {
        BatchByTable(db, events, now);
        WritesKeepClientCosts(db.observations, ObservationWrites(events, now), events, now);
        if prices.Some? {
          ResolveKeepsClientCosts(ApplyEvents(db, events, now, None).value.observations, Touched(events),
                                  prices.value.models, prices.value.regex);
        }
      }
  }

  /** Over every run of creates, updates and price resolutions, in any order: a row with a
      client-provided cost shows that cost and its sum, whatever prices were computed. */
  lemma {:induction false} ClientCostNeverOverwritten(actions: seq<Action>)
    ensures ClientCostsKept(RunActions(EMPTY, actions).observations)
  {
    if actions != [] {
      ClientCostNeverOverwritten(actions[..|actions| - 1]);
      ActKeepsClientCosts(RunActions(EMPTY, actions[..|actions| - 1]), actions[|actions| - 1]);
    }
  }
}
