/** `apply_events`: one batch of events written in one transaction. */
module Ingest {
  import opened Tables
  import opened Events
  import opened Pricing

  datatype Db = Db(traces: Table, observations: Table, scores: map<Key, Score>)

  const EMPTY: Db := Db(map[], map[], map[])

  /** What pricing needs; absent when `apply_events` runs without a price cache. */
  datatype Prices = Prices(models: seq<ModelPrice>, regex: Regex)

  // --- statements an event turns into ---------------------------------------------

  /** The row builders do not raise on `e`. */
  predicate Buildable(e: Event) {
    && !e.Malformed? && (IsObservation(e) ==> Coercible(e.body))
    && (e.ScoreCreate? && Truthy(e.score.dataType) ==> e.score.dataType.Text?)
  }

  function TraceMerge(e: Event, now: int): Write
    requires e.TraceCreate?
  {
    Merge(KeyOf(e), TraceRow(e, now), TRACE_COLUMNS * e.body.Keys)
  }

  /** A create is authoritative for type and start_time; every other column only if sent. */
  function CreateMerge(e: Event, now: int): Write
    requires e.ObservationCreate?
  {
    Merge(KeyOf(e), ObservationRow(e, now), ObservationFields(e.body).Keys + {Type, StartTime})
  }

  function UpdatePatch(e: Event, now: int): Write
    requires e.ObservationUpdate?
  {
    Patch(KeyOf(e), ObservationRow(e, now), ObservationFields(e.body).Keys + {UpdatedAt})
  }

  /** What one event adds to each of the four lists `apply_events` fills. */
  datatype Parts = Parts(traces: seq<Write>, creates: seq<Write>, patches: seq<Write>, scores: seq<(Key, Score)>)

  function PartsOf(e: Event, now: int): Parts {
    match e
    case TraceCreate(_, _, _, _) => Parts([TraceMerge(e, now)], [], [], [])
    case ObservationCreate(_, _, _, _, _) => Parts([], [CreateMerge(e, now)], [], [])
    case ObservationUpdate(_, _, _, _, _) => Parts([], [], [UpdatePatch(e, now)], [])
    case ScoreCreate(_, _, _, _) => Parts([], [], [], [(KeyOf(e), ScoreRow(e, now))])
    case _ => Parts([], [], [], [])
  }

  function TraceMerges(events: seq<Event>, now: int): seq<Write> {
    if events == [] then []
    else TraceMerges(events[..|events| - 1], now) + PartsOf(events[|events| - 1], now).traces
  }

  function CreateMerges(events: seq<Event>, now: int): seq<Write> {
    if events == [] then []
    else CreateMerges(events[..|events| - 1], now) + PartsOf(events[|events| - 1], now).creates
  }

  function UpdatePatches(events: seq<Event>, now: int): seq<Write> {
    if events == [] then []
    else UpdatePatches(events[..|events| - 1], now) + PartsOf(events[|events| - 1], now).patches
  }

  function ScoreRows(events: seq<Event>, now: int): seq<(Key, Score)> {
    if events == [] then []
    else ScoreRows(events[..|events| - 1], now) + PartsOf(events[|events| - 1], now).scores
  }

  // --- grouping by the set of columns sent -------------------------------------------

  datatype Group = Group(sent: set<Column>, rows: seq<Write>)

  predicate AllMerges(ws: seq<Write>) {
    forall w :: w in ws ==> w.Merge?
  }

  /** `groups.setdefault(sent, []).append(row)` on an insertion-ordered dict. */
  function AddToGroup(groups: seq<Group>, w: Write): seq<Group>
    requires w.Merge?
  {
    if groups == [] then [Group(w.sent, [w])]
    else if groups[0].sent == w.sent then [Group(w.sent, groups[0].rows + [w])] + groups[1..]
    else [groups[0]] + AddToGroup(groups[1..], w)
  }

  function Grouped(ws: seq<Write>): seq<Group>
    requires AllMerges(ws)
  {
    if ws == [] then []
    else
      assert forall w :: w in ws[..|ws| - 1] ==> w in ws;
      AddToGroup(Grouped(ws[..|ws| - 1]), ws[|ws| - 1])
  }

  /** The rows in the order the grouped statements run. */
  function Flat(groups: seq<Group>): seq<Write> {
    if groups == [] then [] else Flat(groups[..|groups| - 1]) + groups[|groups| - 1].rows
  }

  predicate InGroups(groups: seq<Group>, w: Write) {
    exists g :: g in groups && w in g.rows
  }

  lemma {:induction false} InFlat(groups: seq<Group>, w: Write)
    ensures w in Flat(groups) <==> InGroups(groups, w)
  {
    if groups != [] {
      InFlat(groups[..|groups| - 1], w);
      assert groups == groups[..|groups| - 1] + [groups[|groups| - 1]];
    }
  }

  lemma InGroupsCons(head: Group, rest: seq<Group>, x: Write)
    ensures InGroups([head] + rest, x) <==> x in head.rows || InGroups(rest, x)
  {
    var groups := [head] + rest;
    assert head in groups;
    if InGroups(rest, x) {
      var g :| g in rest && x in g.rows;
      assert g in groups;
    }
  }

  lemma {:induction false} InAddToGroup(groups: seq<Group>, w: Write, x: Write)
    requires w.Merge?
    ensures InGroups(AddToGroup(groups, w), x) <==> x == w || InGroups(groups, x)
  {
    if groups == [] {
      InGroupsCons(Group(w.sent, [w]), [], x);
    } else {
      var head, rest := groups[0], groups[1..];
      assert groups == [head] + rest;
      InGroupsCons(head, rest, x);
      if head.sent == w.sent {
        InGroupsCons(Group(w.sent, head.rows + [w]), rest, x);
      } else {
        InAddToGroup(rest, w, x);
        InGroupsCons(head, AddToGroup(rest, w), x);
      }
    }
  }

  /** Grouping reorders rows; it neither loses nor invents any. */
  lemma {:induction false} GroupingKeepsRows(ws: seq<Write>, x: Write)
    requires AllMerges(ws)
    ensures x in Flat(Grouped(ws)) <==> x in ws
  {
    InFlat(Grouped(ws), x);
    if ws != [] {
      var init, last := ws[..|ws| - 1], ws[|ws| - 1];
      assert ws == init + [last];
      GroupingKeepsRows(init, x);
      InFlat(Grouped(init), x);
      InAddToGroup(Grouped(init), last, x);
    }
  }

  /** The rows with one set of columns sent, in the order given. */
  function WithSent(ws: seq<Write>, sent: set<Column>): seq<Write>
    requires AllMerges(ws)
  {
    if ws == [] then []
    else
      var last := ws[|ws| - 1];
      assert forall w :: w in ws[..|ws| - 1] ==> w in ws;
      WithSent(ws[..|ws| - 1], sent) + if last.sent == sent then [last] else []
  }

  /** Set `a` is sent before set `b` ever is. */
  ghost predicate SeenBefore(ws: seq<Write>, a: set<Column>, b: set<Column>)
    requires AllMerges(ws)
  {
    exists p :: 0 <= p < |ws| && ws[p].sent == a && forall q :: 0 <= q <= p ==> ws[q].sent != b
  }

  /** No set twice, first seen first, and each group holds the rows with its set, in the order
      given. */
  ghost predicate SoGrouped(groups: seq<Group>, ws: seq<Write>)
    requires AllMerges(ws)
  {
    && (forall i, j :: 0 <= i < j < |groups| ==>
          groups[i].sent != groups[j].sent && SeenBefore(ws, groups[i].sent, groups[j].sent))
    && (forall i :: 0 <= i < |groups| ==> groups[i].rows == WithSent(ws, groups[i].sent))
    && (forall p :: 0 <= p < |ws| ==> HasSet(groups, ws[p].sent))
    && forall i :: 0 <= i < |groups| ==> IsSent(ws, groups[i].sent)
  }

  predicate IsSent(ws: seq<Write>, sent: set<Column>)
    requires AllMerges(ws)
  {
    exists p :: 0 <= p < |ws| && ws[p].sent == sent
  }

  predicate HasSet(groups: seq<Group>, sent: set<Column>) {
    exists i :: 0 <= i < |groups| && groups[i].sent == sent
  }

  /** A row joins the group of its set if there is one, and else starts one at the end. */
  lemma {:induction false} StartsNew(groups: seq<Group>, w: Write)
    requires w.Merge? && forall i :: 0 <= i < |groups| ==> groups[i].sent != w.sent
    ensures AddToGroup(groups, w) == groups + [Group(w.sent, [w])]
  {
    if groups != [] {
      StartsNew(groups[1..], w);
      assert groups == [groups[0]] + groups[1..];
    }
  }

  lemma {:induction false} JoinsOld(groups: seq<Group>, w: Write, n: nat)
    requires w.Merge? && n < |groups| && groups[n].sent == w.sent
    requires forall i :: 0 <= i < n ==> groups[i].sent != w.sent
    ensures AddToGroup(groups, w) == groups[n := Group(w.sent, groups[n].rows + [w])]
  {
    if n > 0 {
      JoinsOld(groups[1..], w, n - 1);
      assert groups == [groups[0]] + groups[1..];
    }
  }

  lemma WithSentSnoc(ws: seq<Write>, w: Write, sent: set<Column>)
    requires AllMerges(ws) && w.Merge?
    ensures AllMerges(ws + [w])
    ensures WithSent(ws + [w], sent) == WithSent(ws, sent) + if w.sent == sent then [w] else []
  {
    assert (ws + [w])[..|ws|] == ws;
  }

  lemma SeenBeforeSnoc(ws: seq<Write>, w: Write, a: set<Column>, b: set<Column>)
    requires AllMerges(ws) && w.Merge? && SeenBefore(ws, a, b)
    ensures SeenBefore(ws + [w], a, b)
  {
    var p :| 0 <= p < |ws| && ws[p].sent == a && forall q :: 0 <= q <= p ==> ws[q].sent != b;
    forall q | 0 <= q < |ws| ensures (ws + [w])[q] == ws[q] {}
  }

  lemma {:induction false} Unseen(ws: seq<Write>, sent: set<Column>)
    requires AllMerges(ws) && forall p :: 0 <= p < |ws| ==> ws[p].sent != sent
    ensures WithSent(ws, sent) == []
  {
    if ws != [] {
      forall w | w in ws[..|ws| - 1] ensures w in ws {}
      Unseen(ws[..|ws| - 1], sent);
    }
  }

  lemma SnocFacts(groups: seq<Group>, ws: seq<Write>, w: Write)
    requires AllMerges(ws) && w.Merge? && SoGrouped(groups, ws)
    ensures AllMerges(ws + [w])
    ensures forall i :: 0 <= i < |groups| ==>
              WithSent(ws + [w], groups[i].sent) == groups[i].rows + if w.sent == groups[i].sent then [w] else []
    ensures forall i, j :: 0 <= i < j < |groups| ==> SeenBefore(ws + [w], groups[i].sent, groups[j].sent)
    ensures forall i :: 0 <= i < |groups| ==> IsSent(ws + [w], groups[i].sent)
    ensures IsSent(ws + [w], w.sent)
  {
    hide WithSent, SeenBefore;
    var all := ws + [w];
    forall q | 0 <= q < |ws| ensures all[q] == ws[q] {}
    forall i | 0 <= i < |groups|
      ensures WithSent(all, groups[i].sent) == groups[i].rows + if w.sent == groups[i].sent then [w] else []
    {
      WithSentSnoc(ws, w, groups[i].sent);
    }
    forall i, j | 0 <= i < j < |groups| ensures SeenBefore(all, groups[i].sent, groups[j].sent) {
      SeenBeforeSnoc(ws, w, groups[i].sent, groups[j].sent);
    }
    assert all[|ws|] == w;
    forall i | 0 <= i < |groups| ensures IsSent(all, groups[i].sent) {
      assert IsSent(ws, groups[i].sent);
      var p :| 0 <= p < |ws| && ws[p].sent == groups[i].sent;
      assert all[p].sent == groups[i].sent;
    }
  }

  lemma JoinsGroup(groups: seq<Group>, ws: seq<Write>, w: Write, n: nat)
    requires AllMerges(ws) && w.Merge? && SoGrouped(groups, ws) && n < |groups| && groups[n].sent == w.sent
    ensures AllMerges(ws + [w]) && SoGrouped(groups[n := Group(w.sent, groups[n].rows + [w])], ws + [w])
  {
    SnocFacts(groups, ws, w);
    hide WithSent, SeenBefore, IsSent;
    var after, all := groups[n := Group(w.sent, groups[n].rows + [w])], ws + [w];
    forall i | 0 <= i < |groups| ensures after[i].sent == groups[i].sent {}
    forall p | 0 <= p < |all| ensures HasSet(after, all[p].sent) {
      assert p < |ws| ==> HasSet(groups, ws[p].sent);
      var i :| 0 <= i < |groups| && groups[i].sent == all[p].sent;
      assert after[i].sent == all[p].sent;
    }
    forall i | 0 <= i < |after| ensures after[i].rows == WithSent(all, after[i].sent) {
      assert groups[i].rows + [] == groups[i].rows;
    }
  }

  lemma OthersKept(groups: seq<Group>, ws: seq<Write>, w: Write, i: nat)
    requires AllMerges(ws) && w.Merge? && SoGrouped(groups, ws) && i < |groups| && groups[i].sent != w.sent
    ensures AllMerges(ws + [w]) && WithSent(ws + [w], groups[i].sent) == groups[i].rows && IsSent(ws + [w], groups[i].sent)
  {
    hide WithSent, IsSent, SeenBefore;
    SnocFacts(groups, ws, w);
    assert groups[i].rows + [] == groups[i].rows;
  }

  lemma StartedRows(groups: seq<Group>, ws: seq<Write>, w: Write)
    requires AllMerges(ws) && w.Merge? && SoGrouped(groups, ws) && !HasSet(groups, w.sent)
    ensures AllMerges(ws + [w])
    ensures var after := groups + [Group(w.sent, [w])];
            forall i :: 0 <= i < |after| ==> after[i].rows == WithSent(ws + [w], after[i].sent) && IsSent(ws + [w], after[i].sent)
  {
    hide WithSent, IsSent, SoGrouped;
    NewSet(groups, ws, w);
    var after := groups + [Group(w.sent, [w])];
    forall i | 0 <= i < |after| ensures after[i].rows == WithSent(ws + [w], after[i].sent) && IsSent(ws + [w], after[i].sent) {
      if i < |groups| {
        OthersKept(groups, ws, w, i);
      }
    }
  }

  lemma OrderKept(groups: seq<Group>, ws: seq<Write>, w: Write, i: nat, j: nat)
    requires AllMerges(ws) && w.Merge? && SoGrouped(groups, ws) && i < j < |groups|
    ensures AllMerges(ws + [w])
    ensures groups[i].sent != groups[j].sent && SeenBefore(ws + [w], groups[i].sent, groups[j].sent)
  {
    hide WithSent, IsSent, SeenBefore;
    SeenBeforeSnoc(ws, w, groups[i].sent, groups[j].sent);
  }

  lemma OldBeforeNew(groups: seq<Group>, ws: seq<Write>, w: Write, i: nat)
    requires AllMerges(ws) && w.Merge? && SoGrouped(groups, ws) && !HasSet(groups, w.sent) && i < |groups|
    ensures AllMerges(ws + [w]) && groups[i].sent != w.sent && SeenBefore(ws + [w], groups[i].sent, w.sent)
  {
    hide SeenBefore, SoGrouped;
    NewSet(groups, ws, w);
  }

  lemma StartedOrder(groups: seq<Group>, ws: seq<Write>, w: Write)
    requires AllMerges(ws) && w.Merge? && SoGrouped(groups, ws) && !HasSet(groups, w.sent)
    ensures AllMerges(ws + [w])
    ensures var after := groups + [Group(w.sent, [w])];
            forall i, j :: 0 <= i < j < |after| ==>
              after[i].sent != after[j].sent && SeenBefore(ws + [w], after[i].sent, after[j].sent)
  {
    hide WithSent, SeenBefore, IsSent, SoGrouped, HasSet;
    var after := groups + [Group(w.sent, [w])];
    forall i, j | 0 <= i < j < |after|
      ensures after[i].sent != after[j].sent && SeenBefore(ws + [w], after[i].sent, after[j].sent)
    {
      if j < |groups| {
        OrderKept(groups, ws, w, i, j);
      } else {
        OldBeforeNew(groups, ws, w, i);
      }
    }
  }

  lemma StartsGroup(groups: seq<Group>, ws: seq<Write>, w: Write)
    requires AllMerges(ws) && w.Merge? && SoGrouped(groups, ws) && !HasSet(groups, w.sent)
    ensures AllMerges(ws + [w]) && SoGrouped(groups + [Group(w.sent, [w])], ws + [w])
  {
    StartedRows(groups, ws, w);
    StartedOrder(groups, ws, w);
    StartedHas(groups, ws, w);
    hide SoGrouped;
    SoGroupedFrom(groups + [Group(w.sent, [w])], ws + [w]);
  }

  lemma SoGroupedFrom(groups: seq<Group>, ws: seq<Write>)
    requires AllMerges(ws)
    requires forall i, j :: 0 <= i < j < |groups| ==>
               groups[i].sent != groups[j].sent && SeenBefore(ws, groups[i].sent, groups[j].sent)
    requires forall i :: 0 <= i < |groups| ==> groups[i].rows == WithSent(ws, groups[i].sent) && IsSent(ws, groups[i].sent)
    requires forall p :: 0 <= p < |ws| ==> HasSet(groups, ws[p].sent)
    ensures SoGrouped(groups, ws)
  {
    hide WithSent, SeenBefore, HasSet, IsSent;
  }

  lemma StartedHas(groups: seq<Group>, ws: seq<Write>, w: Write)
    requires AllMerges(ws) && w.Merge? && forall p :: 0 <= p < |ws| ==> HasSet(groups, ws[p].sent)
    ensures AllMerges(ws + [w])
    ensures forall p :: 0 <= p < |ws + [w]| ==> HasSet(groups + [Group(w.sent, [w])], (ws + [w])[p].sent)
  {
    var n, after, all := |groups|, groups + [Group(w.sent, [w])], ws + [w];
    assert after[n].sent == w.sent;
    forall p | 0 <= p < |all| ensures HasSet(after, all[p].sent) {
      if p < |ws| {
        var i :| 0 <= i < n && groups[i].sent == ws[p].sent;
        assert after[i].sent == all[p].sent;
      }
    }
  }

  lemma AddKeepsGrouping(groups: seq<Group>, ws: seq<Write>, w: Write)
    requires AllMerges(ws) && w.Merge? && SoGrouped(groups, ws)
    ensures AllMerges(ws + [w]) && SoGrouped(AddToGroup(groups, w), ws + [w])
  {
    hide WithSent, SeenBefore, AddToGroup;
    if HasSet(groups, w.sent) {
      var i :| 0 <= i < |groups| && groups[i].sent == w.sent;
      JoinsOld(groups, w, i);
      JoinsGroup(groups, ws, w, i);
    } else {
      StartsNew(groups, w);
      StartsGroup(groups, ws, w);
    }
  }

  lemma NewSet(groups: seq<Group>, ws: seq<Write>, w: Write)
    requires AllMerges(ws) && w.Merge? && SoGrouped(groups, ws) && !HasSet(groups, w.sent)
    ensures AllMerges(ws + [w]) && WithSent(ws + [w], w.sent) == [w] && IsSent(ws + [w], w.sent)
    ensures forall i :: 0 <= i < |groups| ==> SeenBefore(ws + [w], groups[i].sent, w.sent)
  {
    hide WithSent;
    var all := ws + [w];
    forall p | 0 <= p < |ws| ensures ws[p].sent != w.sent && all[p] == ws[p] { assert HasSet(groups, ws[p].sent); }
    assert all[|ws|].sent == w.sent;
    Unseen(ws, w.sent);
    WithSentSnoc(ws, w, w.sent);
    forall i | 0 <= i < |groups| ensures SeenBefore(all, groups[i].sent, w.sent) {
      assert IsSent(ws, groups[i].sent);
      var p :| 0 <= p < |ws| && ws[p].sent == groups[i].sent;
      assert all[p].sent == groups[i].sent;
    }
  }

  /** The groups, written out. */
  lemma {:induction false} GroupedWrittenOut(ws: seq<Write>)
    requires AllMerges(ws)
    ensures SoGrouped(Grouped(ws), ws)
  {
    if ws != [] {
      var init, last := ws[..|ws| - 1], ws[|ws| - 1];
      assert ws == init + [last];
      GroupedWrittenOut(init);
      hide SoGrouped;
      AddKeepsGrouping(Grouped(init), init, last);
    }
  }

  method GroupBySent(pairs: seq<Write>) returns (groups: seq<Group>)
    requires AllMerges(pairs)
    ensures groups == Grouped(pairs)
  {
    groups := [];
    for i := 0 to |pairs|
      invariant groups == Grouped(pairs[..i])
    {
      assert pairs[..i + 1][..i] == pairs[..i];
      groups := AddToGroup(groups, pairs[i]);
    }
    assert pairs[..|pairs|] == pairs;
  }

  lemma {:induction false} AreMerges(events: seq<Event>, now: int)
    ensures AllMerges(TraceMerges(events, now)) && AllMerges(CreateMerges(events, now))
  {
    if events != [] {
      AreMerges(events[..|events| - 1], now);
    }
  }

  // --- the batch ----------------------------------------------------------------------

  function Referenced(events: seq<Event>): set<Key> {
    set e | e in events && IsObservation(e) :: TraceKeyOf(e)
  }

  function Known(events: seq<Event>): set<Key> {
    set e | e in events && e.TraceCreate? :: KeyOf(e)
  }

  function Touched(events: seq<Event>): set<Key> {
    set e | e in events && IsObservation(e) :: KeyOf(e)
  }

  /** Stubs only fill gaps. */
  function AddStubs(traces: Table, stubs: set<Key>, now: int): Table {
    map k | k in traces.Keys + stubs :: if k in traces then traces[k] else StubRow(now)
  }

  function TraceWrites(events: seq<Event>, now: int): seq<Write> {
    AreMerges(events, now);
    Flat(Grouped(TraceMerges(events, now)))
  }

  /** Creates, grouped, and then the updates one by one. */
  function ObservationWrites(events: seq<Event>, now: int): seq<Write> {
    AreMerges(events, now);
    Flat(Grouped(CreateMerges(events, now))) + UpdatePatches(events, now)
  }

  function InsertScores(scores: map<Key, Score>, rows: seq<(Key, Score)>): Result<map<Key, Score>> {
    if rows == [] then Ok(scores)
    else
      match InsertScores(scores, rows[..|rows| - 1])
      case Err => Err
      case Ok(s) =>
        var (key, row) := rows[|rows| - 1];
        if !ScoreCheck(row) then Err else Ok(if key in s then s else s[key := row])
  }

  /** One batch, before pricing. Any row builder or constraint that fails fails the batch. */
  function Written(db: Db, events: seq<Event>, now: int): Result<Db> {
    var traces := ExecAll(db.traces, TraceWrites(events, now), TraceCheck);
    var observations := ExecAll(db.observations, ObservationWrites(events, now), ObservationCheck);
    var scores := InsertScores(db.scores, ScoreRows(events, now));
    if (exists e :: e in events && !Buildable(e)) || traces.Err? || observations.Err? || scores.Err? then Err
    else Ok(Db(AddStubs(traces.value, Referenced(events) - Known(events), now), observations.value, scores.value))
  }

  /** `apply_events`: costs are resolved after the write, over the rows it touched. */
  function ApplyEvents(db: Db, events: seq<Event>, now: int, prices: Option<Prices>): Result<Db> {
    match Written(db, events, now)
    case Err => Err
    case Ok(out) =>
      if prices.None? then Ok(out)
      else Ok(out.(observations :=
        ResolveAll(out.observations, Touched(events), prices.value.models, prices.value.regex)))
  }

  // --- the source's loops ---------------------------------------------------------------

  /** One `executemany`: the statement runs row by row. */
  method ExecuteMany(table: Table, rows: seq<Write>, check: Row -> bool) returns (r: Result<Table>)
    ensures r == ExecAll(table, rows, check)
  {
    var current := table;
    for i := 0 to |rows|
      invariant ExecAll(table, rows[..i], check) == Ok(current)
    {
      ghost var done := rows[..i + 1];
      assert done[..|done| - 1] == rows[..i] && done[|done| - 1] == rows[i];
      var next := Exec(current, rows[i], check);
      if next.Err? {
        assert rows == done + rows[i + 1..];
        ExecAllConcat(table, done, rows[i + 1..], check);
        return Err;
      }
      current := next.value;
    }
    assert rows[..|rows|] == rows;
    return Ok(current);
  }

  /** One statement per group. */
  method ExecuteGroups(table: Table, groups: seq<Group>, check: Row -> bool) returns (r: Result<Table>)
    ensures r == ExecAll(table, Flat(groups), check)
  {
    var current := table;
    for i := 0 to |groups|
      invariant ExecAll(table, Flat(groups[..i]), check) == Ok(current)
    {
      ghost var done := groups[..i + 1];
      assert done[..|done| - 1] == groups[..i] && done[|done| - 1] == groups[i];
      ExecAllConcat(table, Flat(groups[..i]), groups[i].rows, check);
      var next := ExecuteMany(current, groups[i].rows, check);
      if next.Err? {
        FlatSplit(groups, i + 1);
        ExecAllConcat(table, Flat(done), Flat(groups[i + 1..]), check);
        return Err;
      }
      current := next.value;
    }
    assert groups[..|groups|] == groups;
    return Ok(current);
  }

  lemma {:induction false} FlatSplit(groups: seq<Group>, i: nat)
    requires i <= |groups|
    ensures Flat(groups) == Flat(groups[..i]) + Flat(groups[i..])
    decreases |groups| - i
  {
    if i == |groups| {
      assert groups[..i] == groups;
    } else {
      FlatSplit(groups, i + 1);
      FlatFront(groups[i..]);
      ghost var done := groups[..i + 1];
      assert done[..|done| - 1] == groups[..i] && groups[i..][1..] == groups[i + 1..];
    }
  }

  lemma {:induction false} FlatFront(groups: seq<Group>)
    requires groups != []
    ensures Flat(groups) == groups[0].rows + Flat(groups[1..])
  {
    if |groups| > 1 {
      var init := groups[..|groups| - 1];
      FlatFront(init);
      assert groups[1..][..|groups| - 2] == init[1..];
    } else {
      assert groups[..0] == [];
    }
  }

  /** A database connection: the tables as the open transaction sees them. */
  class Connection {
    var traces: Table
    var observations: Table
    var scores: map<Key, Score>

    constructor (db: Db)
      ensures Contents() == db
    {
      traces, observations, scores := db.traces, db.observations, db.scores;
    }

    function Contents(): Db
      reads this
    {
      Db(traces, observations, scores)
    }

    method InsertStubs(stubs: set<Key>, now: int)
      modifies this`traces
      ensures traces == AddStubs(old(traces), stubs, now)
    {
      var rest := stubs;
      while rest != {}
        invariant rest <= stubs
        invariant traces == AddStubs(old(traces), stubs - rest, now)
        decreases rest
      {
        var k :| k in rest;
        rest := rest - {k};
        if k !in traces {  // ON CONFLICT DO NOTHING
          traces := traces[k := StubRow(now)];
        }
      }
      assert stubs - rest == stubs;
    }

    method InsertScoreRows(rows: seq<(Key, Score)>) returns (ok: bool)
      modifies this`scores
      ensures ok <==> InsertScores(old(scores), rows).Ok?
      ensures ok ==> scores == InsertScores(old(scores), rows).value
    {
      for i := 0 to |rows|
        invariant InsertScores(old(scores), rows[..i]) == Ok(scores)
      {
        ghost var done := rows[..i + 1];
        assert done[..|done| - 1] == rows[..i] && done[|done| - 1] == rows[i];
        var (key, row) := rows[i];
        if !ScoreCheck(row) {
          InsertScoresFails(old(scores), rows, i + 1);
          return false;
        }
        if key !in scores {
          scores := scores[key := row];
        }
      }
      assert rows[..|rows|] == rows;
      return true;
    }

    /** The row builders on one event. */
    method BuildParts(e: Event, now: int) returns (r: Result<Parts>)
      ensures r.Ok? <==> Buildable(e)
      ensures r.Ok? ==> r.value == PartsOf(e, now)
    {
      match e
      case TraceCreate(_, _, _, _) =>
        r := Ok(Parts([TraceMerge(e, now)], [], [], []));
      case ObservationCreate(_, _, _, _, body) =>
        var fields := CollectFields(body);
        if fields.Err? { return Err; }
        var w := Merge(KeyOf(e), ObservationRow(e, now), fields.value.Keys + {Type, StartTime});
        r := Ok(Parts([], [w], [], []));
      case ObservationUpdate(_, _, _, _, body) =>
        var fields := CollectFields(body);
        if fields.Err? { return Err; }
        var w := Patch(KeyOf(e), ObservationRow(e, now), fields.value.Keys + {UpdatedAt});
        r := Ok(Parts([], [], [w], []));
      case ScoreCreate(_, _, _, score) =>
        if Truthy(score.dataType) && !score.dataType.Text? { return Err; }
        r := Ok(Parts([], [], [], [(KeyOf(e), ScoreRow(e, now))]));
      case Unknown =>
        r := Ok(Parts([], [], [], []));
      case Malformed =>
        r := Err;
    }

    /** The row builders, event by event, into one list per table. */
    method Build(events: seq<Event>, now: int) returns (r: Result<Parts>)
      ensures r.Ok? <==> forall e :: e in events ==> Buildable(e)
      ensures r.Ok? ==> r.value.traces == TraceMerges(events, now) && r.value.creates == CreateMerges(events, now)
      ensures r.Ok? ==> r.value.patches == UpdatePatches(events, now) && r.value.scores == ScoreRows(events, now)
    {
      hide Buildable, PartsOf;
      var all := Parts([], [], [], []);
      for i := 0 to |events|
        invariant forall e :: e in events[..i] ==> Buildable(e)
        invariant all.traces == TraceMerges(events[..i], now) && all.creates == CreateMerges(events[..i], now)
        invariant all.patches == UpdatePatches(events[..i], now) && all.scores == ScoreRows(events[..i], now)
      {
        ghost var done := events[..i + 1];
        assert done[..|done| - 1] == events[..i] && done[|done| - 1] == events[i];
        assert done == events[..i] + [events[i]];
        var parts := BuildParts(events[i], now);
        if parts.Err? { return Err; }
        all := Parts(all.traces + parts.value.traces, all.creates + parts.value.creates,
                     all.patches + parts.value.patches, all.scores + parts.value.scores);
      }
      assert events[..|events|] == events;
      return Ok(all);
    }

    method ResolveRow(k: Key, models: seq<ModelPrice>, regex: Regex)
      requires k in observations
      modifies this`observations
      ensures observations == old(observations)[k := ResolveAll(old(observations), {k}, models, regex)[k]]
    {
      var row := observations[k];
      if Resolvable(row) && row[StartTime].Time? {
        var price := PriceFor(row, k.project, models, regex);
        var cost := ComputeCost(row[UsageDetails].counts, price);
        if cost.Some? {
          observations := observations[k :=
            row[InternalModelId := Text(price.value.modelId)]
            [CostDetails := Costs(cost.value.details)]
            [TotalCost := Amount(cost.value.total)]];
        }
      }
    }

    /** Prices every generation among `keys` that the client did not price itself. */
    method ResolveCosts(keys: set<Key>, models: seq<ModelPrice>, regex: Regex)
      modifies this`observations
      ensures observations == ResolveAll(old(observations), keys, models, regex)
    {
      ghost var before := observations;
      var done, rest: set<Key> := {}, keys * observations.Keys;
      while rest != {}
        invariant done + rest == keys * before.Keys && done !! rest && observations.Keys == before.Keys
        invariant observations == ResolveAll(before, done, models, regex)
        decreases rest
      {
        var k :| k in rest;
        ResolveRow(k, models, regex);
        ResolveOneMore(before, done, k, models, regex);
        done, rest := done + {k}, rest - {k};
      }
      ResolveAbsent(before, keys, models, regex);
    }

    /** Everything after an error is left to the caller's rollback. */
    method Apply(events: seq<Event>, now: int, prices: Option<Prices>) returns (ok: bool)
      modifies this
      ensures ok <==> ApplyEvents(old(Contents()), events, now, prices).Ok?
      ensures ok ==> Contents() == ApplyEvents(old(Contents()), events, now, prices).value
    {
      hide ExecAll, InsertScores, TraceMerges, CreateMerges, UpdatePatches, ScoreRows, Grouped, Flat, AddStubs;
      var built := Build(events, now);
      if built.Err? { return false; }
      var Parts(traceRows, creates, patches, scoreRows) := built.value;
      AreMerges(events, now);
      var groups := GroupBySent(traceRows);
      var merged := ExecuteGroups(traces, groups, TraceCheck);
      if merged.Err? { return false; }
      traces := merged.value;
      InsertStubs(Referenced(events) - Known(events), now);

      groups := GroupBySent(creates);
      ExecAllConcat(observations, Flat(groups), patches, ObservationCheck);
      var created := ExecuteGroups(observations, groups, ObservationCheck);
      if created.Err? { return false; }
      var updated := ExecuteMany(created.value, patches, ObservationCheck);
      if updated.Err? { return false; }
      observations := updated.value;

      var inserted := InsertScoreRows(scoreRows);
      if !inserted { return false; }
      if prices.Some? && Touched(events) != {} {
        ResolveCosts(Touched(events), prices.value.models, prices.value.regex);
      } else if prices.Some? {
        assert observations == ResolveAll(observations, {}, prices.value.models, prices.value.regex);
      }
      return true;
    }

    /** `async with engine.begin()`: commit, or roll back when anything raises. `outage` is a
        failure of the database itself. */
    method Begin(events: seq<Event>, now: int, prices: Option<Prices>, outage: bool) returns (ok: bool)
      modifies this
      ensures ok <==> !outage && ApplyEvents(old(Contents()), events, now, prices).Ok?
      ensures Contents() == if ok then ApplyEvents(old(Contents()), events, now, prices).value else old(Contents())
    {
      var saved := Contents();
      ok := Apply(events, now, prices);
      if outage || !ok {
        traces, observations, scores := saved.traces, saved.observations, saved.scores;
        ok := false;
      }
    }
  }

  lemma ResolveOneMore(table: Table, done: set<Key>, k: Key, models: seq<ModelPrice>, regex: Regex)
    requires k in table && k !in done
    ensures var t := ResolveAll(table, done, models, regex);
            t[k := ResolveAll(t, {k}, models, regex)[k]] == ResolveAll(table, done + {k}, models, regex)
  {
  }

  lemma ResolveAbsent(table: Table, keys: set<Key>, models: seq<ModelPrice>, regex: Regex)
    ensures ResolveAll(table, keys * table.Keys, models, regex) == ResolveAll(table, keys, models, regex)
  {
  }

  lemma {:induction false} InsertScoresFails(scores: map<Key, Score>, rows: seq<(Key, Score)>, i: nat)
    requires i <= |rows| && InsertScores(scores, rows[..i]).Err?
    ensures InsertScores(scores, rows).Err?
    decreases |rows| - i
  {
    if i == |rows| {
      assert rows[..i] == rows;
    } else {
      ghost var next := rows[..i + 1];
      assert next[..|next| - 1] == rows[..i];
      InsertScoresFails(scores, rows, i + 1);
    }
  }
}
