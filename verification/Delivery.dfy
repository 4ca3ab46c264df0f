/** From the SDK through the stream and the tables back to the tree: batches in any order, with
    redeliveries, rollbacks and re-costings in between. */
module Delivery {
  import opened Tables
  import opened Pricing
  import opened Ingest
  import opened BatchRefinement
  import opened DbInvariants
  import opened RoundTrip
  import Events
  import Forest
  import Spans

  type Id = string

  /** The calls a program made in one trace, by span id. */
  type Calls = map<Id, Stored>

  function ParentValue(c: Stored): Value {
    if c.parent.Some? then Text(c.parent.value) else Null
  }

  /** `e` is the create of one of the calls, or an update of one: updates never send the parent
      or the start. Anything else about the event is free. */
  predicate FromCall(e: Events.Event, calls: Calls)
    requires Events.IsObservation(e)
  {
    && e.id in calls && e.traceId == calls[e.id].trace
    && if e.ObservationCreate? then
         && Events.Get(e.body, StartTime) == Time(calls[e.id].start)
         && (ParentId in e.body <==> calls[e.id].parent.Some?)
         && Events.Get(e.body, ParentId) == ParentValue(calls[e.id])
       else StartTime !in e.body && ParentId !in e.body
  }

  predicate Concerns(e: Events.Event, project: string, t: Id, calls: Calls)
    requires Events.IsObservation(e)
  {
    e.project == project && (e.id in calls || e.traceId == t)
  }

  /** Every event that names trace `t` or one of its calls' ids is about one of the calls. Other
      programs may write other traces of the project. */
  predicate AllFromCalls(events: seq<Events.Event>, project: string, t: Id, calls: Calls) {
    forall e :: e in events && Events.IsObservation(e) && Concerns(e, project, t, calls) ==> FromCall(e, calls)
  }

  /** What a row shows of its call: the parent and the start once the create is in. */
  predicate RowFits(row: Row, c: Stored, created: bool) {
    && row[TraceId] == Text(c.trace)
    && row[ParentId] == (if created then ParentValue(c) else Null)
    && (created ==> row[StartTime] == Time(c.start))
  }

  ghost predicate TableFits(table: Table, project: string, t: Id, calls: Calls, created: set<Id>) {
    && (forall k :: k in table && k.project == project && (k.id in calls || table[k][TraceId] == Text(t)) ==>
          k.id in calls && RowFits(table[k], calls[k.id], k.id in created))
    && forall id :: id in created ==> Key(project, id) in table
  }

  lemma ProposedCell(e: Events.Event, now: int, col: Column)
    requires Events.IsObservation(e)
    ensures StepOf(e, now).proposed[col] == Events.ObservationValue(e, now, col)
  {
  }

  lemma SentColumn(e: Events.Event, now: int, col: Column)
    requires e.ObservationCreate? && (col == TraceId || col == ParentId || col == StartTime)
    ensures StepOf(e, now).Merge? && StepOf(e, now).key == Events.KeyOf(e)
    ensures col in Updatable(StepOf(e, now).sent) <==> Events.Sends(e.body, col) || col == StartTime
  {
    assert col in Events.ObservationFields(e.body) <==> Events.Sends(e.body, col);
  }

  lemma CreateShows(e: Events.Event, now: int, c: Stored)
    requires e.ObservationCreate? && e.traceId == c.trace
    requires Events.Get(e.body, StartTime) == Time(c.start)
    requires (ParentId in e.body <==> c.parent.Some?) && Events.Get(e.body, ParentId) == ParentValue(c)
    ensures var w := StepOf(e, now);
            && RowFits(w.proposed, c, true)
            && !Overwrites(w, TraceId) && Overwrites(w, StartTime) && (Overwrites(w, ParentId) <==> c.parent.Some?)
  {
    hide StepOf, Updatable;
    ProposedCell(e, now, TraceId);
    ProposedCell(e, now, ParentId);
    ProposedCell(e, now, StartTime);
    SentColumn(e, now, TraceId);
    SentColumn(e, now, ParentId);
    SentColumn(e, now, StartTime);
  }

  lemma PatchedColumn(e: Events.Event, now: int, col: Column)
    requires e.ObservationUpdate? && (col == TraceId || col == ParentId || col == StartTime)
    ensures Overwrites(StepOf(e, now), col) <==> Events.Sends(e.body, col)
  {
    hide Events.ObservationRow, Events.SentValue;
    assert col in Events.ObservationFields(e.body) <==> Events.Sends(e.body, col);
  }

  lemma UpdateShows(e: Events.Event, now: int, c: Stored)
    requires e.ObservationUpdate? && e.traceId == c.trace && StartTime !in e.body && ParentId !in e.body
    ensures var w := StepOf(e, now);
            && RowFits(w.proposed, c, false)
            && !Overwrites(w, TraceId) && !Overwrites(w, StartTime) && !Overwrites(w, ParentId)
  {
    hide StepOf, Overwrites;
    ProposedCell(e, now, TraceId);
    ProposedCell(e, now, ParentId);
    PatchedColumn(e, now, TraceId);
    PatchedColumn(e, now, ParentId);
    PatchedColumn(e, now, StartTime);
  }

  lemma CreateLands(table: Table, e: Events.Event, now: int, c: Stored, before: bool)
    requires e.ObservationCreate? && e.traceId == c.trace
    requires Events.Get(e.body, StartTime) == Time(c.start)
    requires (ParentId in e.body <==> c.parent.Some?) && Events.Get(e.body, ParentId) == ParentValue(c)
    requires Events.KeyOf(e) in table ==> RowFits(table[Events.KeyOf(e)], c, before)
    ensures RowFits(Landed(table, StepOf(e, now)), c, true)
  {
    hide StepOf;
    CreateShows(e, now, c);
    assert StepOf(e, now).key == Events.KeyOf(e) by { StepKey(e, now); }
  }

  lemma UpdateLands(table: Table, e: Events.Event, now: int, c: Stored, before: bool)
    requires e.ObservationUpdate? && e.traceId == c.trace && StartTime !in e.body && ParentId !in e.body
    requires Events.KeyOf(e) in table ==> RowFits(table[Events.KeyOf(e)], c, before)
    ensures RowFits(Landed(table, StepOf(e, now)), c, before && Events.KeyOf(e) in table)
  {
    hide StepOf;
    UpdateShows(e, now, c);
    assert StepOf(e, now).key == Events.KeyOf(e) by { StepKey(e, now); }
  }

  /** The ids whose creates `e` brings in. */
  function CreatedBy(e: Events.Event, project: string): set<Id> {
    if e.ObservationCreate? && e.project == project then {e.id} else {}
  }

  /** An event of another trace leaves its row in another trace. */
  lemma OtherLands(table: Table, e: Events.Event, now: int, t: Id)
    requires Events.IsObservation(e) && e.traceId != t
    requires Events.KeyOf(e) in table ==> table[Events.KeyOf(e)][TraceId] != Text(t)
    ensures Landed(table, StepOf(e, now))[TraceId] != Text(t)
  {
    hide StepOf;
    TraceIdNeverOverwritten(StepOf(e, now), e, now);
  }

  lemma PutFits(table: Table, k: Key, row: Row, project: string, t: Id, calls: Calls, created: set<Id>, more: set<Id>)
    requires TableFits(table, project, t, calls, created)
    requires more <= {k.id} && (more != {} ==> k.project == project)
    requires k.project == project && (k.id in calls || row[TraceId] == Text(t)) ==>
               k.id in calls && RowFits(row, calls[k.id], k.id in created + more)
    ensures TableFits(table[k := row], project, t, calls, created + more)
  {
    hide RowFits;
  }

  lemma WriteFits(table: Table, e: Events.Event, now: int, project: string, t: Id, calls: Calls, created: set<Id>)
    requires TableFits(table, project, t, calls, created)
    requires Events.IsObservation(e) && (Concerns(e, project, t, calls) ==> FromCall(e, calls))
    ensures TableFits(Apply(table, StepOf(e, now)), project, t, calls, created + CreatedBy(e, project))
  {
    hide StepOf, RowFits, Landed;
    StepKey(e, now);
    if Concerns(e, project, t, calls) {
      var c := calls[e.id];
      if e.ObservationCreate? {
        CreateLands(table, e, now, c, e.id in created);
      } else {
        UpdateLands(table, e, now, c, e.id in created);
      }
    } else if e.project == project {
      OtherLands(table, e, now, t);
    }
    PutFits(table, Events.KeyOf(e), Landed(table, StepOf(e, now)), project, t, calls, created, CreatedBy(e, project));
  }

  /** The creates of the project among some events. */
  function CreatedIn(events: seq<Events.Event>, project: string): set<Id> {
    set e | e in events && e.ObservationCreate? && e.project == project :: e.id
  }

  /** The creates behind some of a batch's writes. */
  ghost function CreatedByWrites(ws: seq<Write>, events: seq<Events.Event>, now: int, project: string): set<Id> {
    set e | e in events && e.ObservationCreate? && e.project == project && StepOf(e, now) in ws :: e.id
  }

  lemma {:induction false} WritesFit(table: Table, ws: seq<Write>, events: seq<Events.Event>, now: int,
                                     project: string, t: Id, calls: Calls, created: set<Id>)
    requires TableFits(table, project, t, calls, created) && AllFromCalls(events, project, t, calls)
    requires forall w :: w in ws ==> w in ObservationWrites(events, now)
    ensures TableFits(ApplyAll(table, ws), project, t, calls, created + CreatedByWrites(ws, events, now, project))
  {
    hide TableFits, StepOf, ObservationWrites;
    if ws == [] {
      assert created + CreatedByWrites([], events, now, project) == created;
    } else {
      var init, last := ws[..|ws| - 1], ws[|ws| - 1];
      assert ws == init + [last];
      WritesFit(table, init, events, now, project, t, calls, created);
      var e := BatchStepEvent(events, now, last);
      var before := created + CreatedByWrites(init, events, now, project);
      WriteFits(ApplyAll(table, init), e, now, project, t, calls, before);
      SameWriteSameCreate(init, last, e, events, now, project);
      assert before + CreatedBy(e, project) == created + CreatedByWrites(ws, events, now, project);
    }
  }

  /** Events with one write bring in the same create. */
  lemma SameWriteSameCreate(init: seq<Write>, last: Write, e: Events.Event, events: seq<Events.Event>, now: int,
                            project: string)
    requires Events.IsObservation(e) && e in events && last == StepOf(e, now)
    ensures CreatedByWrites(init + [last], events, now, project) ==
            CreatedByWrites(init, events, now, project) + CreatedBy(e, project)
  {
    var both := init + [last];
    forall f | f in events && f.ObservationCreate? && f.project == project && StepOf(f, now) == last
      ensures f.id in CreatedBy(e, project)
    {
      StepKey(f, now);
      StepKey(e, now);
      assert StepOf(f, now).Merge? && StepOf(e, now).Merge?;
    }
    assert last in both && forall w :: w in both <==> w in init || w == last;
  }

  lemma AllCreatesWritten(events: seq<Events.Event>, now: int, project: string)
    ensures CreatedByWrites(ObservationWrites(events, now), events, now, project) == CreatedIn(events, project)
  {
    hide StepOf, ObservationWrites;
    forall e | e in events && e.ObservationCreate? ensures StepOf(e, now) in ObservationWrites(events, now) {
      CreateWritten(events, now, e);
    }
  }

  lemma PricingFits(table: Table, keys: set<Key>, models: seq<ModelPrice>, regex: Regex, project: string,
                    t: Id, calls: Calls, created: set<Id>)
    requires TableFits(table, project, t, calls, created)
    ensures TableFits(ResolveAll(table, keys, models, regex), project, t, calls, created)
  {
    hide Resolved;
    var after := ResolveAll(table, keys, models, regex);
    forall k | k in after && k.project == project && (k.id in calls || after[k][TraceId] == Text(t))
      ensures k.id in calls && RowFits(after[k], calls[k.id], k.id in created)
    {
      ResolvedShows(table[k], k.project, models, regex);
    }
  }

  lemma ResolvedShows(row: Row, project: string, models: seq<ModelPrice>, regex: Regex)
    ensures var r := Resolved(row, project, models, regex);
            r[TraceId] == row[TraceId] && r[ParentId] == row[ParentId] && r[StartTime] == row[StartTime]
  {
  }

  // --- runs ---------------------------------------------------------------------------------------

  predicate FromSdk(a: Action, project: string, t: Id, calls: Calls) {
    a.Batch? ==> AllFromCalls(a.events, project, t, calls)
  }

  /** The batch commits. */
  predicate Commits(db: Db, a: Action) {
    a.Batch? && !a.outage && ApplyEvents(db, a.events, a.now, a.prices).Ok?
  }

  /** The spans whose creates were in a batch that committed. */
  function Committed(actions: seq<Action>, project: string): set<Id> {
    if actions == [] then {}
    else
      var n := |actions| - 1;
      Committed(actions[..n], project) +
      if Commits(RunActions(EMPTY, actions[..n]), actions[n]) then CreatedIn(actions[n].events, project) else {}
  }

  lemma ActFits(db: Db, a: Action, project: string, t: Id, calls: Calls, created: set<Id>)
    requires TableFits(db.observations, project, t, calls, created) && FromSdk(a, project, t, calls)
    ensures TableFits(Act(db, a).observations, project, t, calls,
                      created + if Commits(db, a) then CreatedIn(a.events, project) else {})
  {
    hide TableFits, ResolveAll, CreatedIn;
    match a
    case Recost(keys, models, regex) =>
      PricingFits(db.observations, keys, models, regex, project, t, calls, created);
      assert created + {} == created;
    case Batch(events, now, prices, outage) =>
      if Commits(db, a) {
        UnpricedFirst(db, events, now, prices);
        BatchByTable(db, events, now);
        WritesFit(db.observations, ObservationWrites(events, now), events, now, project, t, calls, created);
        AllCreatesWritten(events, now, project);
        if prices.Some? {
          PricingFits(ApplyEvents(db, events, now, None).value.observations, Touched(events),
                      prices.value.models, prices.value.regex, project, t, calls, created + CreatedIn(events, project));
        }
      } else {
        assert created + {} == created;
      }
  }

  lemma UnpricedFirst(db: Db, events: seq<Events.Event>, now: int, prices: Option<Prices>)
    requires ApplyEvents(db, events, now, prices).Ok?
    ensures ApplyEvents(db, events, now, None).Ok?
    ensures var plain := ApplyEvents(db, events, now, None).value;
            ApplyEvents(db, events, now, prices).value.observations ==
            if prices.None? then plain.observations
            else ResolveAll(plain.observations, Touched(events), prices.value.models, prices.value.regex)
  {
    hide Written, ResolveAll;
  }

  /** After any run in which the trace's events are the SDK's, every row of the trace shows its
      call. */
  lemma {:induction false} RunFits(actions: seq<Action>, project: string, t: Id, calls: Calls)
    requires forall a :: a in actions ==> FromSdk(a, project, t, calls)
    ensures TableFits(RunActions(EMPTY, actions).observations, project, t, calls, Committed(actions, project))
  {
    hide FromSdk, Act, Commits, CreatedIn;
    if actions != [] {
      var n := |actions| - 1;
      assert actions[n] in actions && forall a :: a in actions[..n] ==> a in actions;
      RunFits(actions[..n], project, t, calls);
      ActFits(RunActions(EMPTY, actions[..n]), actions[n], project, t, calls, Committed(actions[..n], project));
    }
  }

  // --- the tree --------------------------------------------------------------------------------------

  /** The rows `get_trace` selects: those of the trace, by start time and id. */
  ghost predicate IsTraceQuery(q: seq<Stored>, table: Table, project: string, t: Id, less: (Id, Id) -> bool) {
    && (forall i, j :: 0 <= i < j < |q| ==> q[i].id != q[j].id && !Before(q[j], q[i], less))
    && (forall r :: r in q ==> r.trace == t && Key(project, r.id) in table && RowFits(table[Key(project, r.id)], r, true))
    && forall k :: k in table && k.project == project && table[k][TraceId] == Text(t) ==> SelectsId(q, k.id)
  }

  predicate SelectsId(q: seq<Stored>, id: Id) {
    exists r :: r in q && r.id == id
  }

  /** The calls by id. */
  function MadeBy(rows: seq<Stored>): Calls {
    if rows == [] then map[]
    else
      var last := rows[|rows| - 1];
      MadeBy(rows[..|rows| - 1])[last.id := last]
  }

  lemma {:induction false} MadeById(rows: seq<Stored>)
    requires forall i, j :: 0 <= i < j < |rows| ==> rows[i].id != rows[j].id
    ensures forall r :: r in rows ==> r.id in MadeBy(rows) && MadeBy(rows)[r.id] == r
    ensures forall id :: id in MadeBy(rows) ==> MadeBy(rows)[id] in rows && MadeBy(rows)[id].id == id
  {
    if rows != [] {
      var init, last := rows[..|rows| - 1], rows[|rows| - 1];
      MadeById(init);
      assert rows == init + [last];
    }
  }

  lemma {:induction false} CountedOnce<T>(xs: seq<T>, x: T)
    requires forall i, j :: 0 <= i < j < |xs| ==> xs[i] != xs[j]
    ensures multiset(xs)[x] == if x in xs then 1 else 0
  {
    if xs != [] {
      var init, last := xs[..|xs| - 1], xs[|xs| - 1];
      CountedOnce(init, x);
      assert xs == init + [last];
    }
  }

  lemma SameElements<T>(xs: seq<T>, ys: seq<T>)
    requires forall i, j :: 0 <= i < j < |xs| ==> xs[i] != xs[j]
    requires forall i, j :: 0 <= i < j < |ys| ==> ys[i] != ys[j]
    requires forall x :: x in xs <==> x in ys
    ensures multiset(xs) == multiset(ys)
  {
    forall x ensures multiset(xs)[x] == multiset(ys)[x] {
      CountedOnce(xs, x);
      CountedOnce(ys, x);
    }
  }

  lemma OneFit(row: Row, r: Stored, c: Stored)
    requires RowFits(row, r, true) && RowFits(row, c, true) && r.id == c.id
    ensures r == c
  {
  }

  /** Every row the query finds is a call's: as the call was made once its create is in, and
      without a parent before. */
  lemma QueryRow(table: Table, project: string, t: Id, sent: seq<Stored>, created: set<Id>, q: seq<Stored>,
                 less: (Id, Id) -> bool, r: Stored)
    requires forall i, j :: 0 <= i < j < |sent| ==> sent[i].id != sent[j].id
    requires TableFits(table, project, t, MadeBy(sent), created) && IsTraceQuery(q, table, project, t, less) && r in q
    ensures r.id in MadeBy(sent) && MadeBy(sent)[r.id] in sent && MadeBy(sent)[r.id].id == r.id
    ensures r.id in created ==> r == MadeBy(sent)[r.id]
    ensures r.id !in created ==> r.parent.None?
  {
    hide RowFits, MadeBy;
    var k := Key(project, r.id);
    MadeById(sent);
    FitsTrace(table[k], r);
    var c := MadeBy(sent)[r.id];
    if r.id in created { OneFit(table[k], r, c); } else { NoParentYet(table[k], r, c); }
  }

  lemma NoParentYet(row: Row, r: Stored, c: Stored)
    requires RowFits(row, r, true) && RowFits(row, c, false)
    ensures r.parent.None?
  {
  }

  /** The query finds every call whose create is in. */
  lemma CreatedFound(table: Table, project: string, t: Id, sent: seq<Stored>, created: set<Id>, q: seq<Stored>,
                     less: (Id, Id) -> bool, c: Stored)
    requires forall i, j :: 0 <= i < j < |sent| ==> sent[i].id != sent[j].id
    requires TableFits(table, project, t, MadeBy(sent), created) && IsTraceQuery(q, table, project, t, less)
    requires c in sent && c.trace == t && c.id in created
    ensures c in q
  {
    hide RowFits, MadeBy;
    MadeById(sent);
    var k := Key(project, c.id);
    FitsTrace(table[k], c);
    var found :| found in q && found.id == c.id;
    QueryRow(table, project, t, sent, created, q, less, found);
  }

  lemma FitsTrace(row: Row, r: Stored)
    requires RowFits(row, r, true)
    ensures row[TraceId] == Text(r.trace)
  {
  }

  /** The creates a program emits for trace `t`. */
  function SentFor(s: Spans.Supply, program: seq<Spans.Stmt>, k: nat, m: nat, t: Id): seq<Stored> {
    StoredOf(Spans.EventsOf(Spans.Meaning(s, program, false, k, m).log, "", None), Some(t))
  }

  lemma {:induction false} SameTrace(events: seq<Spans.Event>, t: Id)
    ensures forall r :: r in StoredOf(events, Some(t)) ==> r.trace == t
  {
    forall r | r in StoredOf(events, Some(t)) ensures r.trace == t { StoredFrom(events, r, Some(t)); }
  }

  lemma ProgramStored(s: Spans.Supply, program: seq<Spans.Stmt>, k: nat, m: nat, t: Id)
    requires Spans.Sound(s)
    ensures var rows := SentFor(s, program, k, m, t);
            && Rising(rows) && (forall i, j :: 0 <= i < j < |rows| ==> rows[i].id != rows[j].id)
            && forall r :: r in rows ==> r.trace == t
  {
    MeaningStamped(s, program, false, k, m, "", None, Some(t));
    SameTrace(Spans.EventsOf(Spans.Meaning(s, program, false, k, m).log, "", None), t);
  }

  /** End to end: once the creates of a trace are all in committed batches, `get_trace` returns
      the trace's calls as they were made, whatever the order, grouping and redelivery of the
      events, and whatever other programs wrote, rolled back or was re-costed in between. */
  lemma TreeRebuilt(s: Spans.Supply, program: seq<Spans.Stmt>, k: nat, m: nat, project: string, t: Id,
                    actions: seq<Action>, q: seq<Stored>, less: (Id, Id) -> bool)
    requires Spans.Sound(s)
    requires forall a :: a in actions ==> FromSdk(a, project, t, MadeBy(SentFor(s, program, k, m, t)))
    requires forall c :: c in SentFor(s, program, k, m, t) ==> c.id in Committed(actions, project)
    requires IsTraceQuery(q, RunActions(EMPTY, actions).observations, project, t, less)
    ensures Forest.DistinctIds(Links(q))
    ensures Forest.ForestOf(Links(q)) == CallForest(t, Spans.Meaning(s, program, false, k, m).log)
  {
    hide RowFits, MadeBy, StoredOf, FromSdk, RunActions, Committed, TableFits, Links, IsTraceQuery;
    hide RoundTrip.CallForest, Forest.ForestOf, Spans.Meaning, Spans.EventsOf;
    var sent, created := SentFor(s, program, k, m, t), Committed(actions, project);
    var table := RunActions(EMPTY, actions).observations;
    RunFits(actions, project, t, MadeBy(sent));
    ProgramStored(s, program, k, m, t);
    forall r ensures r in q <==> r in sent {
      if r in q {
        MadeById(sent);
        QueryRow(table, project, t, sent, created, q, less, r);
      }
      if r in sent { CreatedFound(table, project, t, sent, created, q, less, r); }
    }
    QueryDistinct(q, table, project, t, less);
    SameElements(q, sent);
    CallTreeRoundTrip(s, program, k, m, t, q, less);
  }

  lemma QueryDistinct(q: seq<Stored>, table: Table, project: string, t: Id, less: (Id, Id) -> bool)
    requires IsTraceQuery(q, table, project, t, less)
    ensures forall i, j :: 0 <= i < j < |q| ==> q[i].id != q[j].id && !Before(q[j], q[i], less)
  {
  }

  // --- when creates are missing ---------------------------------------------------------------------

  /** The rows whose creates are in. */
  function Only(rows: seq<Stored>, created: set<Id>): seq<Stored> {
    if rows == [] then []
    else
      var last := rows[|rows| - 1];
      Only(rows[..|rows| - 1], created) + if last.id in created then [last] else []
  }

  lemma {:induction false} InOnly(rows: seq<Stored>, created: set<Id>, r: Stored)
    ensures r in Only(rows, created) <==> r in rows && r.id in created
  {
    if rows != [] {
      InOnly(rows[..|rows| - 1], created, r);
      assert rows == rows[..|rows| - 1] + [rows[|rows| - 1]];
    }
  }

  predicate InOrder(rows: seq<Stored>, less: (Id, Id) -> bool) {
    forall i, j :: 0 <= i < j < |rows| ==> rows[i].id != rows[j].id && !Before(rows[j], rows[i], less)
  }

  /** What is left of an ordered list is ordered. */
  lemma {:induction false} OnlyOrdered(rows: seq<Stored>, created: set<Id>, less: (Id, Id) -> bool)
    requires InOrder(rows, less)
    ensures InOrder(Only(rows, created), less)
  {
    if rows != [] {
      var init, last := rows[..|rows| - 1], rows[|rows| - 1];
      OnlyOrdered(init, created, less);
      var only := Only(init, created);
      forall i | 0 <= i < |only| ensures only[i].id != last.id && !Before(last, only[i], less) {
        InOnly(init, created, only[i]);
        var j :| 0 <= j < |init| && init[j] == only[i];
        assert rows[j] == init[j];
      }
      var all := Only(rows, created);
      forall i, j | 0 <= i < j < |all| ensures all[i].id != all[j].id && !Before(all[j], all[i], less) {
        if j < |only| {
          assert all[i] == only[i] && all[j] == only[j];
          assert all[i].id != all[j].id;
        } else {
          assert all[i] == only[i] && all[j] == last;
        }
      }
    }
  }

  lemma {:induction false} OnlyRises(rows: seq<Stored>, created: set<Id>)
    requires Rising(rows)
    ensures Rising(Only(rows, created))
  {
    if rows != [] {
      var init, last := rows[..|rows| - 1], rows[|rows| - 1];
      OnlyRises(init, created);
      forall r | r in Only(init, created) ensures r.start < last.start {
        InOnly(init, created, r);
        var i :| 0 <= i < |init| && init[i] == r;
        assert rows[i] == r;
      }
    }
  }

  lemma LinksSnoc(rows: seq<Stored>, r: Stored)
    ensures Links(rows + [r]) == Links(rows) + [Forest.Span(r.id, r.parent)]
  {
  }

  /** Rows without a parent are nobody's children. */
  lemma {:induction false} OnlyKids(rows: seq<Stored>, created: set<Id>, p: Id)
    requires forall r :: r in rows && r.id !in created ==> r.parent.None?
    ensures Forest.Kids(Links(Only(rows, created)), p) == Forest.Kids(Links(rows), p)
  {
    if rows != [] {
      var init, last := rows[..|rows| - 1], rows[|rows| - 1];
      assert rows == init + [last];
      OnlyKids(init, created, p);
      LinksSnoc(init, last);
      KidsOfSnoc(Links(init), Forest.Span(last.id, last.parent), p);
      if last.id in created {
        LinksSnoc(Only(init, created), last);
        KidsOfSnoc(Links(Only(init, created)), Forest.Span(last.id, last.parent), p);
      } else {
        assert Only(rows, created) == Only(init, created);
      }
    }
  }

  lemma KidsOfSnoc(rows: seq<Forest.Span>, r: Forest.Span, p: Id)
    ensures Forest.Kids(rows + [r], p) == Forest.Kids(rows, p) + if r.parent == Some(p) then [r.id] else []
  {
    assert (rows + [r])[..|rows|] == rows;
  }

  lemma {:induction false} LinksOfOnly(rows: seq<Stored>, created: set<Id>, lost: set<Id>)
    requires forall r :: r in rows ==> (r.id in lost <==> r.id !in created)
    ensures Links(Only(rows, created)) == Survivors(Links(rows), lost)
  {
    hide Links;
    if rows == [] {
      NoLinks();
    } else {
      var init, last := rows[..|rows| - 1], rows[|rows| - 1];
      assert rows == init + [last];
      LinksOfOnly(init, created, lost);
      LinksSnoc(init, last);
      LinksSnoc(Only(init, created), last);
      SurvivorsSnoc(Links(init), Forest.Span(last.id, last.parent), lost);
      if last.id in lost {
        assert Only(rows, created) == Only(init, created);
      } else {
        assert Only(rows, created) == Only(init, created) + [last];
      }
    }
  }

  lemma NoLinks()
    ensures Links([]) == []
  {
  }

  lemma SurvivorsSnoc(rows: seq<Forest.Span>, r: Forest.Span, lost: set<Id>)
    ensures Survivors(rows + [r], lost) == if r.id in lost then Survivors(rows, lost) else Survivors(rows, lost) + [r]
  {
    assert (rows + [r])[..|rows|] == rows;
  }

  lemma LinkOf(rows: seq<Stored>, r: Stored)
    requires forall i, j :: 0 <= i < j < |rows| ==> rows[i].id != rows[j].id
    requires r in rows
    ensures Forest.DistinctIds(Links(rows)) && r.id in Forest.Ids(Links(rows))
    ensures Forest.ParentLink(Links(rows), r.id) == r.parent
  {
    var i :| 0 <= i < |rows| && rows[i] == r;
    assert Links(rows)[i] == Forest.Span(r.id, r.parent);
    Forest.LinkOfRow(Links(rows), Links(rows)[i]);
  }

  lemma RowOfId(rows: seq<Stored>, x: Id) returns (r: Stored)
    requires x in Forest.Ids(Links(rows))
    ensures r in rows && r.id == x
  {
    var l :| l in Links(rows) && l.id == x;
    var i :| 0 <= i < |rows| && Links(rows)[i] == l;
    r := rows[i];
  }

  lemma {:induction false} ClimbsAlike(rows: seq<Forest.Span>, sent: seq<Forest.Span>, a: Id, x: Id, n: nat)
    requires forall y :: Forest.ParentIn(rows, y).Some? ==> Forest.ParentIn(sent, y) == Forest.ParentIn(rows, y)
    requires Forest.Above(rows, a, x, n)
    ensures Forest.Above(sent, a, x, n)
    decreases n
  {
    hide Forest.ParentIn;
    if n > 0 {
      ClimbsAlike(rows, sent, a, Forest.ParentIn(rows, x).value, n - 1);
    }
  }

  /** A row's parent, against the call's. */
  lemma ShownParent(table: Table, project: string, t: Id, sent: seq<Stored>, created: set<Id>, q: seq<Stored>,
                    less: (Id, Id) -> bool, x: Id)
    requires forall i, j :: 0 <= i < j < |sent| ==> sent[i].id != sent[j].id
    requires TableFits(table, project, t, MadeBy(sent), created) && IsTraceQuery(q, table, project, t, less)
    requires x in Forest.Ids(Links(q))
    ensures x in Forest.Ids(Links(sent))
    ensures Forest.ParentLink(Links(q), x) == if x in created then Forest.ParentLink(Links(sent), x) else None
  {
    hide TableFits, IsTraceQuery, MadeBy, Links, Forest.ParentLink;
    var r := RowOfId(q, x);
    QueryDistinct(q, table, project, t, less);
    QueryRow(table, project, t, sent, created, q, less, r);
    LinkOf(q, r);
    LinkOf(sent, MadeBy(sent)[x]);
  }

  /** Siblings stand in call order, the calls whose creates are missing left out. */
  lemma ShownKids(table: Table, project: string, t: Id, sent: seq<Stored>, created: set<Id>, q: seq<Stored>,
                  less: (Id, Id) -> bool, p: Id)
    requires Rising(sent) && (forall i, j :: 0 <= i < j < |sent| ==> sent[i].id != sent[j].id)
    requires forall r :: r in sent ==> r.trace == t
    requires TableFits(table, project, t, MadeBy(sent), created) && IsTraceQuery(q, table, project, t, less)
    ensures Forest.Kids(Links(q), p) == Without(Forest.Kids(Links(sent), p), Forest.Ids(Links(sent)) - created)
  {
    hide TableFits, IsTraceQuery, MadeBy, Links, Forest.Kids, Without;
    var lost := Forest.Ids(Links(sent)) - created;
    forall r | r in q && r.id !in created ensures r.parent.None? {
      QueryRow(table, project, t, sent, created, q, less, r);
    }
    OnlyKids(q, created, p);
    forall r ensures r in Only(q, created) <==> r in Only(sent, created) {
      InOnly(q, created, r);
      InOnly(sent, created, r);
      if r in q && r.id in created { QueryRow(table, project, t, sent, created, q, less, r); }
      if r in sent && r.id in created { CreatedFound(table, project, t, sent, created, q, less, r); }
    }
    QueryDistinct(q, table, project, t, less);
    OnlyOrdered(q, created, less);
    OnlyDistinct(sent, created);
    SameElements(Only(q, created), Only(sent, created));
    OnlyRises(sent, created);
    OneOrder(Only(q, created), Only(sent, created), less);
    forall r | r in sent ensures r.id in lost <==> r.id !in created { LinkOf(sent, r); }
    LinksOfOnly(sent, created, lost);
    SurvivingKids(Links(sent), lost, p);
  }

  predicate DistinctStored(rows: seq<Stored>) {
    forall i, j :: 0 <= i < j < |rows| ==> rows[i].id != rows[j].id
  }

  lemma {:induction false} OnlyDistinct(rows: seq<Stored>, created: set<Id>)
    requires DistinctStored(rows)
    ensures DistinctStored(Only(rows, created))
  {
    if rows != [] {
      var init, last := rows[..|rows| - 1], rows[|rows| - 1];
      OnlyDistinct(init, created);
      var only := Only(init, created);
      assert Only(rows, created) == only + if last.id in created then [last] else [];
      hide Only;
      forall i | 0 <= i < |only| ensures only[i].id != last.id { InOnly(init, created, only[i]); }
    }
  }

  // --- which rows there are -----------------------------------------------------------------------

  /** The spans some event of which, create or update, was in a batch that committed. */
  function Arrived(actions: seq<Action>, project: string): set<Id> {
    if actions == [] then {}
    else
      var n := |actions| - 1;
      Arrived(actions[..n], project) +
      if Commits(RunActions(EMPTY, actions[..n]), actions[n]) then Named(actions[n].events, project) else {}
  }

  function Named(events: seq<Events.Event>, project: string): set<Id> {
    set e | e in events && Events.IsObservation(e) && e.project == project :: e.id
  }

  lemma {:induction false} KeysWritten(table: Table, ws: seq<Write>, k: Key)
    ensures k in ApplyAll(table, ws) <==> k in table || exists w :: w in ws && w.key == k
  {
    hide Landed;
    if ws != [] {
      var init, last := ws[..|ws| - 1], ws[|ws| - 1];
      KeysWritten(table, init, k);
      assert ws == init + [last];
    }
  }

  lemma BatchNames(table: Table, events: seq<Events.Event>, now: int, project: string, id: Id)
    ensures Key(project, id) in ApplyAll(table, ObservationWrites(events, now)) <==>
            Key(project, id) in table || id in Named(events, project)
  {
    hide StepOf, ObservationWrites;
    var k, ws := Key(project, id), ObservationWrites(events, now);
    KeysWritten(table, ws, k);
    if w :| w in ws && w.key == k {
      var e := BatchStepEvent(events, now, w);
      StepKey(e, now);
      assert e.project == project && e.id == id;
    }
    if id in Named(events, project) {
      var e :| e in events && Events.IsObservation(e) && e.project == project && e.id == id;
      EventWritten(events, now, e);
      StepKey(e, now);
    }
  }

  lemma ActNames(db: Db, a: Action, project: string, id: Id)
    ensures Key(project, id) in Act(db, a).observations <==>
            Key(project, id) in db.observations || (Commits(db, a) && id in Named(a.events, project))
  {
    hide Resolved, ObservationWrites, Named;
    if Commits(db, a) {
      UnpricedFirst(db, a.events, a.now, a.prices);
      BatchByTable(db, a.events, a.now);
      BatchNames(db.observations, a.events, a.now, project, id);
    }
  }

  /** A span has a row exactly if a create or an update of it was in a batch that committed. */
  lemma {:induction false} RowsArrived(actions: seq<Action>, project: string, id: Id)
    ensures Key(project, id) in RunActions(EMPTY, actions).observations <==> id in Arrived(actions, project)
  {
    hide Act, Commits, Named;
    if actions != [] {
      var n := |actions| - 1;
      RowsArrived(actions[..n], project, id);
      ActNames(RunActions(EMPTY, actions[..n]), actions[n], project, id);
    }
  }

  lemma {:induction false} CreatedArrived(actions: seq<Action>, project: string)
    ensures Committed(actions, project) <= Arrived(actions, project)
  {
    hide Commits;
    if actions != [] { CreatedArrived(actions[..|actions| - 1], project); }
  }

  /** The query finds exactly the calls that have a row. */
  lemma FoundIffArrived(actions: seq<Action>, project: string, t: Id, sent: seq<Stored>, q: seq<Stored>,
                        less: (Id, Id) -> bool, x: Id)
    requires forall i, j :: 0 <= i < j < |sent| ==> sent[i].id != sent[j].id
    requires forall r :: r in sent ==> r.trace == t
    requires var table := RunActions(EMPTY, actions).observations;
             TableFits(table, project, t, MadeBy(sent), Committed(actions, project)) &&
             IsTraceQuery(q, table, project, t, less)
    requires x in Forest.Ids(Links(sent))
    ensures x in Forest.Ids(Links(q)) <==> x in Arrived(actions, project)
  {
    hide RowFits, MadeBy, RunActions, Committed, Arrived, Links;
    var k, table := Key(project, x), RunActions(EMPTY, actions).observations;
    RowsArrived(actions, project, x);
    MadeById(sent);
    var c := RowOfId(sent, x);
    if k in table {
      FitsCall(table[k], c, x in Committed(actions, project));
      var found :| found in q && found.id == x;
      InLinks(q, found);
    }
    if x in Forest.Ids(Links(q)) {
      var r := RowOfId(q, x);
      assert k in table;
    }
  }

  lemma FitsCall(row: Row, c: Stored, created: bool)
    requires RowFits(row, c, created)
    ensures row[TraceId] == Text(c.trace)
  {
  }

  lemma InLinks(rows: seq<Stored>, r: Stored)
    requires r in rows
    ensures r.id in Forest.Ids(Links(rows))
  {
    var i :| 0 <= i < |rows| && rows[i] == r;
    assert Links(rows)[i] == Forest.Span(r.id, r.parent);
  }

  /** Loss, end to end. A span has a row exactly if some event of it committed: when only its
      create is lost, an update inserts the row. A row shows its call's parent exactly if its create is in, and else no parent
      and no flag; it is flagged missing exactly if its create is in and its parent has no row
      at all. Siblings keep call order, and the walk visits every row once. */
  lemma LossShown(s: Spans.Supply, program: seq<Spans.Stmt>, k: nat, m: nat, project: string, t: Id,
                  actions: seq<Action>, q: seq<Stored>, less: (Id, Id) -> bool)
    requires Spans.Sound(s)
    requires forall a :: a in actions ==> FromSdk(a, project, t, MadeBy(SentFor(s, program, k, m, t)))
    requires IsTraceQuery(q, RunActions(EMPTY, actions).observations, project, t, less)
    ensures var rows, sent, created := Links(q), Links(SentFor(s, program, k, m, t)), Committed(actions, project);
            && Forest.DistinctIds(rows)
            && Forest.Ids(rows) == Forest.Ids(sent) * Arrived(actions, project) && created <= Arrived(actions, project)
            && (forall x :: x in Forest.Ids(rows) ==>
                  && Forest.ParentLink(rows, x) == (if x in created then Forest.ParentLink(sent, x) else None)
                  && (Forest.Missing(rows, x) <==>
                        x in created && Forest.ParentLink(sent, x).Some? &&
                        Forest.ParentLink(sent, x).value !in Forest.Ids(rows)))
            && (forall p :: Forest.Kids(rows, p) == Without(Forest.Kids(sent, p), Forest.Ids(sent) - created))
            && Forest.Distinct(Forest.WalkAll(Forest.ForestOf(rows)))
            && (forall x :: x in Forest.WalkAll(Forest.ForestOf(rows)) <==> x in Forest.Ids(rows))
  {
    hide RowFits, MadeBy, StoredOf, FromSdk, RunActions, Committed, Arrived, TableFits, Links, IsTraceQuery, SentFor;
    hide Forest.ForestOf, Forest.ParentLink, Forest.Kids, Without, Forest.WalkAll, Spans.Meaning, Spans.EventsOf;
    var calls, created := SentFor(s, program, k, m, t), Committed(actions, project);
    var table := RunActions(EMPTY, actions).observations;
    var rows, sent := Links(q), Links(calls);
    RunFits(actions, project, t, MadeBy(calls));
    ProgramStored(s, program, k, m, t);
    CreatedArrived(actions, project);
    QueryDistinct(q, table, project, t, less);
    LinksDistinct(q);
    forall x | x in Forest.Ids(rows)
      ensures x in Forest.Ids(sent)
      ensures Forest.ParentLink(rows, x) == if x in created then Forest.ParentLink(sent, x) else None
    {
      ShownParent(table, project, t, calls, created, q, less, x);
    }
    forall x | x in Forest.Ids(sent) ensures x in Forest.Ids(rows) <==> x in Arrived(actions, project) {
      FoundIffArrived(actions, project, t, calls, q, less, x);
    }
    forall p ensures Forest.Kids(rows, p) == Without(Forest.Kids(sent, p), Forest.Ids(sent) - created) {
      ShownKids(table, project, t, calls, created, q, less, p);
    }
    SentAcyclic(s, program, k, m, t);
    StillAcyclic(rows, sent, created);
    Forest.WalkFromRoots(rows);
    Forest.WalkCompleteIffAcyclic(rows);
  }

  lemma LinksDistinct(rows: seq<Stored>)
    requires forall i, j :: 0 <= i < j < |rows| ==> rows[i].id != rows[j].id
    ensures Forest.DistinctIds(Links(rows))
  {
  }

  lemma SentAcyclic(s: Spans.Supply, program: seq<Spans.Stmt>, k: nat, m: nat, t: Id)
    requires Spans.Sound(s)
    ensures !Forest.HasCycle(Links(SentFor(s, program, k, m, t)))
  {
    hide Spans.Meaning, Spans.EventsOf, StoredOf, Links, Forest.HasCycle;
    CallsAcyclic(s, program, k, m, t);
  }

  lemma StillAcyclic(rows: seq<Forest.Span>, sent: seq<Forest.Span>, created: set<Id>)
    requires Forest.Ids(rows) <= Forest.Ids(sent) && !Forest.HasCycle(sent)
    requires forall x :: x in Forest.Ids(rows) ==>
               Forest.ParentLink(rows, x) == if x in created then Forest.ParentLink(sent, x) else None
    ensures !Forest.HasCycle(rows)
  {
    hide Forest.ParentLink, Forest.Above, Forest.Ids;
    forall y ensures Forest.ParentIn(rows, y).Some? ==> Forest.ParentIn(sent, y) == Forest.ParentIn(rows, y) {
      LinkedIsRow(rows, y);
    }
    if Forest.HasCycle(rows) {
      var x, n: nat :| x in Forest.Ids(rows) && n > 0 && Forest.Above(rows, x, x, n);
      ClimbsAlike(rows, sent, x, x, n);
    }
  }

  lemma {:induction false} LinkedIsRow(rows: seq<Forest.Span>, y: Id)
    ensures Forest.ParentLink(rows, y).Some? ==> y in Forest.Ids(rows)
  {
    if rows != [] {
      var init, last := rows[..|rows| - 1], rows[|rows| - 1];
      assert rows == init + [last];
      LinkedIsRow(init, y);
      IdsOfConcat(init, [last]);
      OneRow(last, y, {});
    }
  }
}
