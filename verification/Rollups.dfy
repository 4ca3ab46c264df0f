/** The dashboard's queries: LEFT JOIN and GROUP BY over traces, observations and scores, and the
    separate totals of a run comparison. */
module Rollups {
  import opened Tables

  // --- the SQL used ---------------------------------------------------------------------

  /** The rows of `ys` that join with `x`. */
  function Found<A, B>(x: A, ys: seq<B>, on: (A, B) -> bool): seq<B> {
    if ys == [] then [] else (if on(x, ys[0]) then [ys[0]] else []) + Found(x, ys[1..], on)
  }

  function Paired<A, B>(x: A, ys: seq<B>): seq<(A, Option<B>)> {
    seq(|ys|, i requires 0 <= i < |ys| => (x, Some(ys[i])))
  }

  /** The rows LEFT JOIN makes of `x`: one for each match, or one with NULL. */
  function Matches<A, B>(x: A, ys: seq<B>, on: (A, B) -> bool): seq<(A, Option<B>)> {
    var m := Found(x, ys, on);
    if m == [] then [(x, None)] else Paired(x, m)
  }

  function LeftJoin<A, B>(xs: seq<A>, ys: seq<B>, on: (A, B) -> bool): seq<(A, Option<B>)> {
    if xs == [] then [] else Matches(xs[0], ys, on) + LeftJoin(xs[1..], ys, on)
  }

  function ValuesOf<K(==), V>(rows: seq<(K, V)>, k: K): seq<V> {
    if rows == [] then [] else (if rows[0].0 == k then [rows[0].1] else []) + ValuesOf(rows[1..], k)
  }

  function Others<K(==), V>(rows: seq<(K, V)>, k: K): (r: seq<(K, V)>)
    ensures |r| <= |rows|
  {
    if rows == [] then [] else (if rows[0].0 == k then [] else [rows[0]]) + Others(rows[1..], k)
  }

  function GroupBy<K(==), V>(rows: seq<(K, V)>): seq<(K, seq<V>)>
    decreases |rows|
  {
    if rows == [] then []
    else
      var k := rows[0].0;
      [(k, ValuesOf(rows, k))] + GroupBy(Others(rows[1..], k))
  }

  /** SUM: NULL over no values at all. */
  function Sum(xs: seq<Option<real>>): Option<real> {
    if xs == [] then None else Plus(xs[0], Sum(xs[1..]))
  }

  function Plus(a: Option<real>, b: Option<real>): Option<real> {
    if a.None? then b else if b.None? then a else Some(a.value + b.value)
  }

  function CountOf(xs: seq<Option<real>>): nat {
    if xs == [] then 0 else (if xs[0].Some? then 1 else 0) + CountOf(xs[1..])
  }

  lemma {:induction false} SumCounts(xs: seq<Option<real>>)
    ensures Sum(xs).Some? <==> CountOf(xs) > 0
  {
    if xs != [] {
      SumCounts(xs[1..]);
    }
  }

  function Avg(xs: seq<Option<real>>): Option<real> {
    SumCounts(xs);
    if Sum(xs).None? then None else Some(Sum(xs).value / CountOf(xs) as real)
  }

  // --- the tables and the queries ------------------------------------------------------------

  datatype TraceRow = TraceRow(id: string, at: int)
  datatype CostRow = CostRow(trace: string, cost: Option<real>)
  datatype ScoreRow = ScoreRow(trace: string, value: Option<real>)

  predicate DistinctIds(ts: seq<TraceRow>) {
    forall i, j :: 0 <= i < j < |ts| ==> ts[i].id != ts[j].id
  }

  function CostsIn(os: seq<Option<CostRow>>): seq<Option<real>> {
    seq(|os|, i requires 0 <= i < |os| => if os[i].Some? then os[i].value.cost else None)
  }

  function ValuesIn(ss: seq<Option<ScoreRow>>): seq<Option<real>> {
    seq(|ss|, i requires 0 <= i < |ss| => if ss[i].Some? then ss[i].value.value else None)
  }

  function CostMatch(): (TraceRow, CostRow) -> bool {
    (t: TraceRow, o: CostRow) => o.trace == t.id
  }

  function ScoreMatch(): (TraceRow, ScoreRow) -> bool {
    (t: TraceRow, s: ScoreRow) => s.trace == t.id && s.value.Some?
  }

  datatype TraceRollup = TraceRollup(trace: TraceRow, cost: Option<real>)
  datatype ScoreRollup = ScoreRollup(id: string, mean: Option<real>)

  function TraceRollups(ts: seq<TraceRow>, os: seq<CostRow>): seq<TraceRollup> {
    var groups := GroupBy(LeftJoin(ts, os, CostMatch()));
    seq(|groups|, i requires 0 <= i < |groups| => TraceRollup(groups[i].0, Sum(CostsIn(groups[i].1))))
  }

  function ById(rows: seq<(TraceRow, Option<ScoreRow>)>): seq<(string, Option<ScoreRow>)> {
    seq(|rows|, i requires 0 <= i < |rows| => (rows[i].0.id, rows[i].1))
  }

  function ScoreRollups(ts: seq<TraceRow>, ss: seq<ScoreRow>): seq<ScoreRollup> {
    var groups := GroupBy(ById(LeftJoin(ts, ss, ScoreMatch())));
    seq(|groups|, i requires 0 <= i < |groups| => ScoreRollup(groups[i].0, Avg(ValuesIn(groups[i].1))))
  }

  function SameId(): (TraceRollup, ScoreRollup) -> bool {
    (t: TraceRollup, s: ScoreRollup) => s.id == t.trace.id
  }

  /** trace_rollups LEFT JOIN score_rollups */
  function Joined(ts: seq<TraceRow>, os: seq<CostRow>, ss: seq<ScoreRow>): seq<(TraceRollup, Option<ScoreRollup>)> {
    LeftJoin(TraceRollups(ts, os), ScoreRollups(ts, ss), SameId())
  }

  /** What a trace itself cost: the sum over its observations that have a cost. */
  function OwnCost(t: TraceRow, os: seq<CostRow>): Option<real> {
    if os == [] then None else Plus(if os[0].trace == t.id then os[0].cost else None, OwnCost(t, os[1..]))
  }

  /** The values of a trace's own scores. */
  function OwnValues(t: TraceRow, ss: seq<ScoreRow>): seq<Option<real>> {
    if ss == [] then []
    else (if ss[0].trace == t.id && ss[0].value.Some? then [ss[0].value] else []) + OwnValues(t, ss[1..])
  }

  // --- grouping a join by what was joined ---------------------------------------------------

  ghost predicate KeyedBy<K, V>(rows: seq<(K, V)>, k: K) {
    forall i :: 0 <= i < |rows| ==> rows[i].0 == k
  }

  ghost predicate Without<K, V>(rows: seq<(K, V)>, k: K) {
    forall i :: 0 <= i < |rows| ==> rows[i].0 != k
  }

  function Seconds<K, V>(rows: seq<(K, V)>): seq<V> {
    seq(|rows|, i requires 0 <= i < |rows| => rows[i].1)
  }

  lemma {:induction false} SplitOff<K, V>(xs: seq<(K, V)>, ys: seq<(K, V)>, k: K)
    requires KeyedBy(xs, k) && Without(ys, k)
    ensures ValuesOf(xs + ys, k) == Seconds(xs) && Others(xs + ys, k) == ys
  {
    if xs != [] {
      assert (xs + ys)[1..] == xs[1..] + ys;
      SplitOff(xs[1..], ys, k);
    } else if ys != [] {
      assert xs + ys == ys;
      assert ys == [ys[0]] + ys[1..];
      SplitOff(xs, ys[1..], k);
      assert [] + ys[1..] == ys[1..];
    }
  }

  lemma GroupFirst<K, V>(xs: seq<(K, V)>, ys: seq<(K, V)>, k: K)
    requires xs != [] && KeyedBy(xs, k) && Without(ys, k)
    ensures GroupBy(xs + ys) == [(k, Seconds(xs))] + GroupBy(ys)
  {
    SplitOff(xs, ys, k);
    SplitOff(xs[1..], ys, k);
    assert (xs + ys)[1..] == xs[1..] + ys && (xs + ys)[0].0 == k;
  }

  /** Grouping a LEFT JOIN by its left row gives each left row once, with its own matches. */
  lemma {:induction false} GroupedJoin<A(!new), B>(xs: seq<A>, ys: seq<B>, on: (A, B) -> bool)
    requires forall i, j :: 0 <= i < j < |xs| ==> xs[i] != xs[j]
    ensures |GroupBy(LeftJoin(xs, ys, on))| == |xs|
    ensures forall i :: 0 <= i < |xs| ==> GroupBy(LeftJoin(xs, ys, on))[i] == (xs[i], Seconds(Matches(xs[i], ys, on)))
  {
    if xs != [] {
      var x, tail := xs[0], xs[1..];
      GroupedJoin(tail, ys, on);
      JoinKeys(tail, ys, on);
      GroupFirst(Matches(x, ys, on), LeftJoin(tail, ys, on), x);
    }
  }

  lemma {:induction false} JoinKeys<A, B>(xs: seq<A>, ys: seq<B>, on: (A, B) -> bool)
    ensures forall i :: 0 <= i < |LeftJoin(xs, ys, on)| ==> LeftJoin(xs, ys, on)[i].0 in xs
  {
    if xs != [] {
      JoinKeys(xs[1..], ys, on);
    }
  }

  // --- one row per trace -------------------------------------------------------------------------

  function Somes<B>(ys: seq<B>): seq<Option<B>> {
    seq(|ys|, i requires 0 <= i < |ys| => Some(ys[i]))
  }

  lemma {:induction false} FoundCost(t: TraceRow, os: seq<CostRow>)
    ensures Sum(CostsIn(Somes(Found(t, os, CostMatch())))) == OwnCost(t, os)
  {
    if os != [] {
      FoundCost(t, os[1..]);
      var rest := Found(t, os[1..], CostMatch());
      if os[0].trace == t.id {
        assert CostsIn(Somes([os[0]] + rest))[1..] == CostsIn(Somes(rest));
      } else {
        assert Found(t, os, CostMatch()) == rest;
      }
    }
  }

  lemma {:induction false} FoundValues(t: TraceRow, ss: seq<ScoreRow>)
    ensures ValuesIn(Somes(Found(t, ss, ScoreMatch()))) == OwnValues(t, ss)
  {
    if ss != [] {
      FoundValues(t, ss[1..]);
      var rest := Found(t, ss[1..], ScoreMatch());
      if ss[0].trace == t.id && ss[0].value.Some? {
        assert ValuesIn(Somes([ss[0]] + rest)) == [ss[0].value] + ValuesIn(Somes(rest));
      } else {
        assert Found(t, ss, ScoreMatch()) == rest;
      }
    }
  }

  lemma SecondsOfMatches<A, B>(x: A, ys: seq<B>, on: (A, B) -> bool)
    ensures Seconds(Matches(x, ys, on)) == if Found(x, ys, on) == [] then [None] else Somes(Found(x, ys, on))
  {
  }

  lemma SumOne(x: Option<real>)
    ensures Sum([x]) == x
  {
    assert [x][1..] == [];
  }

  lemma MatchedCost(t: TraceRow, os: seq<CostRow>)
    ensures Sum(CostsIn(Seconds(Matches(t, os, CostMatch())))) == OwnCost(t, os)
  {
    SecondsOfMatches(t, os, CostMatch());
    FoundCost(t, os);
    assert CostsIn([None]) == [None] && CostsIn(Somes<CostRow>([])) == [];
    assert Sum([None]) == None by { SumOne(None); }
  }

  lemma MatchedMean(t: TraceRow, ss: seq<ScoreRow>)
    ensures Avg(ValuesIn(Seconds(Matches(t, ss, ScoreMatch())))) == Avg(OwnValues(t, ss))
  {
    SecondsOfMatches(t, ss, ScoreMatch());
    FoundValues(t, ss);
    assert ValuesIn([None]) == [None] && ValuesIn(Somes<ScoreRow>([])) == [];
    assert Avg([None]) == None == Avg([]) by { SumOne(None); }
  }

  lemma CostPerTrace(ts: seq<TraceRow>, os: seq<CostRow>)
    requires DistinctIds(ts)
    ensures |TraceRollups(ts, os)| == |ts|
    ensures forall i :: 0 <= i < |ts| ==> TraceRollups(ts, os)[i] == TraceRollup(ts[i], OwnCost(ts[i], os))
  {
    GroupedJoin(ts, os, CostMatch());
    forall i | 0 <= i < |ts| ensures TraceRollups(ts, os)[i] == TraceRollup(ts[i], OwnCost(ts[i], os)) {
      MatchedCost(ts[i], os);
    }
  }

  lemma MatchesOfOne(t: TraceRow, ss: seq<ScoreRow>)
    ensures var head := Matches(t, ss, ScoreMatch());
            head != [] && KeyedBy(ById(head), t.id) && Seconds(ById(head)) == Seconds(head)
  {
  }

  lemma MatchesOfOthers(t: TraceRow, tail: seq<TraceRow>, ss: seq<ScoreRow>)
    requires forall i :: 0 <= i < |tail| ==> tail[i].id != t.id
    ensures Without(ById(LeftJoin(tail, ss, ScoreMatch())), t.id)
  {
    JoinKeys(tail, ss, ScoreMatch());
  }

  lemma ByIdConcat(xs: seq<(TraceRow, Option<ScoreRow>)>, ys: seq<(TraceRow, Option<ScoreRow>)>)
    ensures ById(xs + ys) == ById(xs) + ById(ys)
  {
  }

  /** The same with the key reduced to the trace's id. */
  lemma {:induction false} GroupedById(ts: seq<TraceRow>, ss: seq<ScoreRow>)
    requires DistinctIds(ts)
    ensures var groups := GroupBy(ById(LeftJoin(ts, ss, ScoreMatch())));
            |groups| == |ts| && forall i :: 0 <= i < |ts| ==>
              groups[i] == (ts[i].id, Seconds(Matches(ts[i], ss, ScoreMatch())))
  {
    if ts != [] {
      hide Matches, GroupBy, ById, Seconds;
      var t, tail := ts[0], ts[1..];
      GroupedById(tail, ss);
      var head, rest := Matches(t, ss, ScoreMatch()), LeftJoin(tail, ss, ScoreMatch());
      MatchesOfOne(t, ss);
      MatchesOfOthers(t, tail, ss);
      ByIdConcat(head, rest);
      assert ById(head) != [] by { ByIdSize(head); }
      GroupFirst(ById(head), ById(rest), t.id);
    }
  }

  lemma ByIdSize(xs: seq<(TraceRow, Option<ScoreRow>)>)
    ensures |ById(xs)| == |xs|
  {
  }

  lemma MeanPerTrace(ts: seq<TraceRow>, ss: seq<ScoreRow>)
    requires DistinctIds(ts)
    ensures |ScoreRollups(ts, ss)| == |ts|
    ensures forall i :: 0 <= i < |ts| ==> ScoreRollups(ts, ss)[i] == ScoreRollup(ts[i].id, Avg(OwnValues(ts[i], ss)))
  {
    GroupedById(ts, ss);
    forall i | 0 <= i < |ts| ensures ScoreRollups(ts, ss)[i] == ScoreRollup(ts[i].id, Avg(OwnValues(ts[i], ss))) {
      MatchedMean(ts[i], ss);
    }
  }

  lemma {:induction false} FoundOnce<A, B>(x: A, ys: seq<B>, on: (A, B) -> bool, j: nat)
    requires j < |ys| && forall i :: 0 <= i < |ys| ==> (on(x, ys[i]) <==> i == j)
    ensures Found(x, ys, on) == [ys[j]]
  {
    if j == 0 {
      FoundNone(x, ys[1..], on);
    } else {
      FoundOnce(x, ys[1..], on, j - 1);
    }
  }

  lemma {:induction false} FoundNone<A, B>(x: A, ys: seq<B>, on: (A, B) -> bool)
    requires forall i :: 0 <= i < |ys| ==> !on(x, ys[i])
    ensures Found(x, ys, on) == []
  {
    if ys != [] {
      FoundNone(x, ys[1..], on);
    }
  }

  lemma {:induction false} JoinEach<A, B>(xs: seq<A>, ys: seq<B>, on: (A, B) -> bool, zs: seq<B>)
    requires |zs| == |xs| && forall i :: 0 <= i < |xs| ==> Found(xs[i], ys, on) == [zs[i]]
    ensures LeftJoin(xs, ys, on) == seq(|xs|, i requires 0 <= i < |xs| => (xs[i], Some(zs[i])))
  {
    if xs != [] {
      JoinEach(xs[1..], ys, on, zs[1..]);
      assert Matches(xs[0], ys, on) == [(xs[0], Some(zs[0]))];
    }
  }

  /** No fan-out: whatever the numbers of observations and scores, the joined rollup has one row
      per trace, with the trace's own cost and the mean of its own scores. */
  lemma OneRowPerTrace(ts: seq<TraceRow>, os: seq<CostRow>, ss: seq<ScoreRow>)
    requires DistinctIds(ts)
    ensures |Joined(ts, os, ss)| == |ts|
    ensures forall i :: 0 <= i < |ts| ==>
              Joined(ts, os, ss)[i].0 == TraceRollup(ts[i], OwnCost(ts[i], os)) &&
              Joined(ts, os, ss)[i].1 == Some(ScoreRollup(ts[i].id, Avg(OwnValues(ts[i], ss))))
  {
    hide TraceRollups, ScoreRollups, Avg, OwnCost, OwnValues;
    CostPerTrace(ts, os);
    MeanPerTrace(ts, ss);
    var tr, sr := TraceRollups(ts, os), ScoreRollups(ts, ss);
    forall i | 0 <= i < |ts| ensures Found(tr[i], sr, SameId()) == [sr[i]] {
      FoundOnce(tr[i], sr, SameId(), i);
    }
    JoinEach(tr, sr, SameId(), sr);
  }

  // --- days and summary ----------------------------------------------------------------------------

  type JoinedRow = (TraceRollup, Option<ScoreRollup>)

  /** date_trunc('day', ...) of a time in seconds. */
  function Day(at: int): int {
    at / 86400
  }

  function Dated(rows: seq<JoinedRow>): seq<(int, Option<real>)> {
    seq(|rows|, i requires 0 <= i < |rows| => (Day(rows[i].0.trace.at), rows[i].0.cost))
  }

  datatype DayRow = DayRow(day: int, traces: nat, cost: Option<real>)

  function PerDay(rows: seq<JoinedRow>): seq<DayRow> {
    var groups := GroupBy(Dated(rows));
    seq(|groups|, i requires 0 <= i < |groups| => DayRow(groups[i].0, |groups[i].1|, Sum(groups[i].1)))
  }

  function TotalTraces(days: seq<DayRow>): nat {
    if days == [] then 0 else days[0].traces + TotalTraces(days[1..])
  }

  function TotalCost(days: seq<DayRow>): Option<real> {
    if days == [] then None else Plus(days[0].cost, TotalCost(days[1..]))
  }

  function Totals(groups: seq<(int, seq<Option<real>>)>): seq<DayRow> {
    seq(|groups|, i requires 0 <= i < |groups| => DayRow(groups[i].0, |groups[i].1|, Sum(groups[i].1)))
  }

  lemma PlusLaws(a: Option<real>, b: Option<real>, c: Option<real>)
    ensures Plus(Plus(a, b), c) == Plus(a, Plus(b, c)) && Plus(b, Plus(a, c)) == Plus(a, Plus(b, c))
  {
  }

  lemma {:induction false} SumParts(rows: seq<(int, Option<real>)>, k: int)
    ensures |ValuesOf(rows, k)| + |Others(rows, k)| == |rows|
    ensures Plus(Sum(ValuesOf(rows, k)), Sum(Seconds(Others(rows, k)))) == Sum(Seconds(rows))
  {
    if rows != [] {
      var v, tail := rows[0].1, rows[1..];
      SumParts(tail, k);
      PlusLaws(v, Sum(ValuesOf(tail, k)), Sum(Seconds(Others(tail, k))));
      assert Seconds(rows)[1..] == Seconds(tail);
      if rows[0].0 == k {
        assert ValuesOf(rows, k)[1..] == ValuesOf(tail, k) && Others(rows, k) == Others(tail, k);
      } else {
        assert Seconds(Others(rows, k))[1..] == Seconds(Others(tail, k)) && ValuesOf(rows, k) == ValuesOf(tail, k);
      }
    }
  }

  lemma {:induction false} GroupsAddUp(rows: seq<(int, Option<real>)>)
    ensures TotalTraces(Totals(GroupBy(rows))) == |rows|
    ensures TotalCost(Totals(GroupBy(rows))) == Sum(Seconds(rows))
    decreases |rows|
  {
    if rows != [] {
      var k := rows[0].0;
      var others := Others(rows[1..], k);
      SumParts(rows, k);
      GroupsAddUp(others);
      assert Others(rows, k) == others;
      assert Totals(GroupBy(rows))[1..] == Totals(GroupBy(others));
    }
  }

  /** The days' trace counts and costs add up to the summary's. */
  lemma DaysAddUp(ts: seq<TraceRow>, os: seq<CostRow>, ss: seq<ScoreRow>)
    requires DistinctIds(ts)
    ensures TotalTraces(PerDay(Joined(ts, os, ss))) == |ts|
    ensures TotalCost(PerDay(Joined(ts, os, ss))) == Sum(seq(|ts|, i requires 0 <= i < |ts| => OwnCost(ts[i], os)))
  {
    hide OwnCost, Joined, Avg, OwnValues;
    OneRowPerTrace(ts, os, ss);
    var rows := Joined(ts, os, ss);
    GroupsAddUp(Dated(rows));
    assert PerDay(rows) == Totals(GroupBy(Dated(rows)));
    assert Seconds(Dated(rows)) == seq(|ts|, i requires 0 <= i < |ts| => OwnCost(ts[i], os));
  }

  // --- comparing runs ---------------------------------------------------------------------------------

  lemma {:induction false} OtherValues<K, V>(rows: seq<(K, V)>, k: K, j: K)
    ensures ValuesOf(Others(rows, k), j) == if j == k then [] else ValuesOf(rows, j)
  {
    if rows != [] {
      OtherValues(rows[1..], k, j);
      if rows[0].0 != k {
        assert Others(rows, k)[1..] == Others(rows[1..], k);
      } else {
        assert Others(rows, k) == Others(rows[1..], k);
      }
    }
  }

  predicate HasGroup<K(==), V>(groups: seq<(K, seq<V>)>, k: K) {
    exists i :: 0 <= i < |groups| && groups[i].0 == k
  }

  /** Each key has one group, holding all its values; a key without values has none. */
  lemma {:induction false} GroupsHoldValues<K, V>(rows: seq<(K, V)>, k: K)
    ensures HasGroup(GroupBy(rows), k) <==> ValuesOf(rows, k) != []
    ensures forall i :: 0 <= i < |GroupBy(rows)| && GroupBy(rows)[i].0 == k ==> GroupBy(rows)[i].1 == ValuesOf(rows, k)
    decreases |rows|
  {
    if rows != [] {
      var first := rows[0].0;
      var others := Others(rows[1..], first);
      GroupsHoldValues(others, k);
      OtherValues(rows[1..], first, k);
      var rest := GroupBy(others);
      assert GroupBy(rows) == [(first, ValuesOf(rows, first))] + rest;
      assert first != k ==> ValuesOf(rows, k) == ValuesOf(rows[1..], k);
      assert first == k ==> ValuesOf(rows, k) != [];
      hide GroupBy, ValuesOf, Others;
      if first == k {
        assert GroupBy(rows)[0].0 == k;
      } else {
        if HasGroup(rest, k) {
          var i :| 0 <= i < |rest| && rest[i].0 == k;
          assert GroupBy(rows)[i + 1].0 == k;
        }
      }
    }
  }

  datatype Item = Item(id: string, run: string, trace: TraceRow)
  datatype NamedScore = NamedScore(name: string, trace: Option<string>, item: Option<string>, value: Option<real>)
  datatype Tally = Tally(mean: Option<real>, count: nat)
  datatype Entry = Entry(items: nat, meanCost: Option<real>, cost: Option<real>, scores: map<string, Tally>)

  /** The totals query before grouping: one row per item, with its trace's cost. */
  function ItemCosts(items: seq<Item>, names: seq<string>, os: seq<CostRow>): seq<(string, Option<real>)> {
    if items == [] then []
    else
      (if items[0].run in names then [(items[0].run, OwnCost(items[0].trace, os))] else []) +
      ItemCosts(items[1..], names, os)
  }

  /** The costs of a run's own items. */
  function RunCosts(items: seq<Item>, run: string, os: seq<CostRow>): seq<Option<real>> {
    if items == [] then []
    else (if items[0].run == run then [OwnCost(items[0].trace, os)] else []) + RunCosts(items[1..], run, os)
  }

  lemma {:induction false} CostsOfRun(items: seq<Item>, names: seq<string>, os: seq<CostRow>, run: string)
    requires run in names
    ensures ValuesOf(ItemCosts(items, names, os), run) == RunCosts(items, run, os)
  {
    if items != [] {
      CostsOfRun(items[1..], names, os, run);
      var rest := ItemCosts(items[1..], names, os);
      if items[0].run in names {
        assert ItemCosts(items, names, os)[1..] == rest;
      } else {
        assert ItemCosts(items, names, os) == rest;
      }
    }
  }

  lemma {:induction false} NamedRuns(items: seq<Item>, names: seq<string>, os: seq<CostRow>, run: string)
    requires ValuesOf(ItemCosts(items, names, os), run) != []
    ensures run in names
  {
    if run !in names {
      var rest := ItemCosts(items[1..], names, os);
      if items[0].run in names {
        assert ItemCosts(items, names, os)[1..] == rest;
      } else {
        assert ItemCosts(items, names, os) == rest;
      }
      NamedRuns(items[1..], names, os, run);
    }
  }

  /** A score reaches an item through its trace or directly. */
  predicate Reaches(s: NamedScore, item: Item) {
    s.trace == Some(item.trace.id) || s.item == Some(item.id)
  }

  /** What the item contributes to the join with the scores. */
  function ItemScores(item: Item, ss: seq<NamedScore>): seq<((string, string), Option<real>)> {
    if ss == [] then []
    else (if Reaches(ss[0], item) then [((item.run, ss[0].name), ss[0].value)] else []) + ItemScores(item, ss[1..])
  }

  /** The scores query before grouping. */
  function JoinedScores(items: seq<Item>, names: seq<string>, ss: seq<NamedScore>): seq<((string, string), Option<real>)> {
    if items == [] then []
    else (if items[0].run in names then ItemScores(items[0], ss) else []) + JoinedScores(items[1..], names, ss)
  }

  /** The values of one item's scores of one name. */
  function ScoresNamed(item: Item, ss: seq<NamedScore>, name: string): seq<Option<real>> {
    if ss == [] then []
    else
      (if Reaches(ss[0], item) && ss[0].name == name then [ss[0].value] else []) + ScoresNamed(item, ss[1..], name)
  }

  /** The values of the scores of one name that a run's own items have. */
  function RunScores(items: seq<Item>, run: string, ss: seq<NamedScore>, name: string): seq<Option<real>> {
    if items == [] then []
    else (if items[0].run == run then ScoresNamed(items[0], ss, name) else []) + RunScores(items[1..], run, ss, name)
  }

  lemma {:induction false} ValuesOfBoth<K, V>(xs: seq<(K, V)>, ys: seq<(K, V)>, k: K)
    ensures ValuesOf(xs + ys, k) == ValuesOf(xs, k) + ValuesOf(ys, k)
  {
    hide ValuesOf;
    if xs == [] {
      assert xs + ys == ys && ValuesOf(xs, k) == [] by { NoValues<K, V>(k); }
    } else {
      ValuesOfBoth(xs[1..], ys, k);
      FirstValues(xs, k);
      FirstValues(xs + ys, k);
      assert (xs + ys)[1..] == xs[1..] + ys;
      Regrouped(if xs[0].0 == k then [xs[0].1] else [], ValuesOf(xs[1..], k), ValuesOf(ys, k));
    }
  }

  lemma Regrouped<V>(a: seq<V>, b: seq<V>, c: seq<V>)
    ensures a + (b + c) == (a + b) + c
  {
  }

  lemma NoValues<K, V>(k: K)
    ensures ValuesOf<K, V>([], k) == []
  {
  }

  lemma FirstValues<K, V>(xs: seq<(K, V)>, k: K)
    requires xs != []
    ensures ValuesOf(xs, k) == (if xs[0].0 == k then [xs[0].1] else []) + ValuesOf(xs[1..], k)
  {
  }

  lemma {:induction false} ValuesOfItem(item: Item, ss: seq<NamedScore>, run: string, name: string)
    ensures ValuesOf(ItemScores(item, ss), (run, name)) == if item.run == run then ScoresNamed(item, ss, name) else []
  {
    if ss != [] {
      ValuesOfItem(item, ss[1..], run, name);
      var rest := ItemScores(item, ss[1..]);
      if Reaches(ss[0], item) {
        assert ItemScores(item, ss)[1..] == rest;
      } else {
        assert ItemScores(item, ss) == rest;
      }
    }
  }

  lemma {:induction false} ScoresOfRun(items: seq<Item>, names: seq<string>, ss: seq<NamedScore>, run: string, name: string)
    ensures ValuesOf(JoinedScores(items, names, ss), (run, name)) ==
            if run in names then RunScores(items, run, ss, name) else []
  {
    hide ItemScores, ScoresNamed, ValuesOf;
    if items == [] {
      NoValues<(string, string), Option<real>>((run, name));
    } else {
      ScoresOfRun(items[1..], names, ss, run, name);
      ValuesOfItem(items[0], ss, run, name);
      NoValues<(string, string), Option<real>>((run, name));
      var first := if items[0].run in names then ItemScores(items[0], ss) else [];
      ValuesOfBoth(first, JoinedScores(items[1..], names, ss), (run, name));
    }
  }

  function TallyOf(values: seq<Option<real>>): Tally {
    Tally(Avg(values), |values|)
  }

  /** Under each name with a group: the tally of the run's own values. */
  ghost predicate Tallied(scores: map<string, Tally>, groups: seq<((string, string), seq<Option<real>>)>,
                          items: seq<Item>, ss: seq<NamedScore>, run: string)
  {
    forall name ::
      && (name in scores <==> HasGroup(groups, (run, name)))
      && (name in scores ==> scores[name] == TallyOf(RunScores(items, run, ss, name)))
  }

  lemma GroupTallied(scores: map<string, Tally>, groups: seq<((string, string), seq<Option<real>>)>, i: nat,
                     items: seq<Item>, ss: seq<NamedScore>, n: string)
    requires i < |groups| && Tallied(scores, groups[..i], items, ss, n)
    requires groups[i].1 == RunScores(items, groups[i].0.0, ss, groups[i].0.1)
    ensures var ((run, name), values) := groups[i];
            Tallied(if run == n then scores[name := TallyOf(values)] else scores, groups[..i + 1], items, ss, n)
  {
    hide HasGroup, TallyOf, RunScores;
    GroupAdded(groups, i);
  }

  /** The loops of `compare_runs` over the two result sets: a run's item count and costs are its
      own items', whatever scores there are; under each name it has exactly the mean and the
      number of its own items' scores. */
  method CompareRuns(names: seq<string>, items: seq<Item>, os: seq<CostRow>, ss: seq<NamedScore>)
    returns (out: map<string, Entry>)
    ensures out.Keys == set n | n in names
    ensures forall n :: n in names ==>
              && out[n].items == |RunCosts(items, n, os)|
              && out[n].meanCost == Avg(RunCosts(items, n, os)) && out[n].cost == Sum(RunCosts(items, n, os))
    ensures forall n, name :: n in names ==>
              && (name in out[n].scores <==> RunScores(items, n, ss, name) != [])
              && (name in out[n].scores ==> out[n].scores[name] == TallyOf(RunScores(items, n, ss, name)))
  {
    hide GroupBy, Sum, Avg, RunCosts, JoinedScores, RunScores, Tallied, TallyOf, HasGroup;
    out := Totalled(names, items, os);
    ghost var totals := out;
    var groups := GroupBy(JoinedScores(items, names, ss));
    forall n ensures Tallied(map[], groups[..0], items, ss, n) { NothingTallied(items, ss, n); }
    for i := 0 to |groups|
      invariant out.Keys == set n | n in names
      invariant forall n :: n in names ==> out[n] == totals[n].(scores := out[n].scores)
      invariant forall n :: n in names ==> Tallied(out[n].scores, groups[..i], items, ss, n)
    {
      var ((run, name), values) := groups[i];
      OwnGroup(items, names, ss, i);
      forall n | n in names
        ensures Tallied(if run == n then out[n].scores[name := TallyOf(values)] else out[n].scores, groups[..i + 1], items, ss, n)
      {
        GroupTallied(out[n].scores, groups, i, items, ss, n);
      }
      out := out[run := out[run].(scores := out[run].scores[name := TallyOf(values)])];
    }
    assert groups[..|groups|] == groups;
    forall n, name | n in names
      ensures name in out[n].scores <==> RunScores(items, n, ss, name) != []
      ensures name in out[n].scores ==> out[n].scores[name] == TallyOf(RunScores(items, n, ss, name))
    {
      ScoreGroup(items, names, ss, n, name);
      TalliedAt(out[n].scores, groups, items, ss, n, name);
    }
  }

  lemma NothingTallied(items: seq<Item>, ss: seq<NamedScore>, n: string)
    ensures Tallied(map[], [], items, ss, n)
  {
  }

  lemma TalliedAt(scores: map<string, Tally>, groups: seq<((string, string), seq<Option<real>>)>,
                  items: seq<Item>, ss: seq<NamedScore>, n: string, name: string)
    requires Tallied(scores, groups, items, ss, n)
    ensures name in scores <==> HasGroup(groups, (n, name))
    ensures name in scores ==> scores[name] == TallyOf(RunScores(items, n, ss, name))
  {
  }

  lemma OwnGroup(items: seq<Item>, names: seq<string>, ss: seq<NamedScore>, i: nat)
    requires i < |GroupBy(JoinedScores(items, names, ss))|
    ensures var ((run, name), values) := GroupBy(JoinedScores(items, names, ss))[i];
            run in names && values == RunScores(items, run, ss, name)
  {
    hide GroupBy, JoinedScores, RunScores;
    var groups := GroupBy(JoinedScores(items, names, ss));
    var (run, name) := groups[i].0;
    assert HasGroup(groups, (run, name));
    ScoreGroup(items, names, ss, run, name);
  }

  /** The group of a run and a score name holds the run's own values, and is there if there are any. */
  lemma ScoreGroup(items: seq<Item>, names: seq<string>, ss: seq<NamedScore>, run: string, name: string)
    ensures var groups := GroupBy(JoinedScores(items, names, ss));
            && (HasGroup(groups, (run, name)) <==> run in names && RunScores(items, run, ss, name) != [])
            && forall i :: 0 <= i < |groups| && groups[i].0 == (run, name) ==> groups[i].1 == RunScores(items, run, ss, name)
  {
    hide GroupBy, ValuesOf, JoinedScores, RunScores;
    GroupsHoldValues(JoinedScores(items, names, ss), (run, name));
    ScoresOfRun(items, names, ss, run, name);
  }

  /** The loop over the totals. */
  method Totalled(names: seq<string>, items: seq<Item>, os: seq<CostRow>) returns (out: map<string, Entry>)
    ensures out.Keys == set n | n in names
    ensures forall n :: n in names ==>
              out[n] == Entry(|RunCosts(items, n, os)|, Avg(RunCosts(items, n, os)), Sum(RunCosts(items, n, os)), map[])
  {
    hide GroupBy, ValuesOf, Sum, Avg, RunCosts, OwnCost, ItemCosts;
    out := map n | n in names :: Entry(0, None, None, map[]);
    ghost var rows := ItemCosts(items, names, os);
    var groups := GroupBy(ItemCosts(items, names, os));
    forall n ensures HasGroup(groups, n) <==> ValuesOf(rows, n) != [] { GroupsHoldValues(rows, n); }
    forall n | n in names ensures ValuesOf(rows, n) == RunCosts(items, n, os) { CostsOfRun(items, names, os, n); }
    for i := 0 to |groups|
      invariant out.Keys == set n | n in names
      invariant forall n :: n in names ==>
                  out[n] == if HasGroup(groups[..i], n)
                            then Entry(|RunCosts(items, n, os)|, Avg(RunCosts(items, n, os)), Sum(RunCosts(items, n, os)), map[])
                            else Entry(0, None, None, map[])
    {
      var run, costs := groups[i].0, groups[i].1;
      GroupsHoldValues(rows, run);
      GroupAdded(groups, i);
      assert HasGroup(groups, run);
      NamedRuns(items, names, os, run);
      NoMeanNoSum(costs);
      var entry := out[run].(items := |costs|);
      out := out[run := if Avg(costs).Some? then entry.(meanCost := Avg(costs), cost := Sum(costs)) else entry];
    }
    assert groups[..|groups|] == groups;
    NoMeanNoSum([]);
    NoSum();
  }

  lemma NoMeanNoSum(costs: seq<Option<real>>)
    ensures Avg(costs).Some? <==> Sum(costs).Some?
  {
  }

  lemma GroupAdded<K, V>(groups: seq<(K, seq<V>)>, i: nat)
    requires i < |groups|
    ensures forall k :: HasGroup(groups[..i + 1], k) <==> HasGroup(groups[..i], k) || groups[i].0 == k
  {
    var now, before := groups[..i + 1], groups[..i];
    assert now == before + [groups[i]];
    forall k ensures HasGroup(now, k) <==> HasGroup(before, k) || groups[i].0 == k {
      if HasGroup(before, k) {
        var j :| 0 <= j < |before| && before[j].0 == k;
        assert now[j].0 == k;
      }
      if groups[i].0 == k {
        assert now[i].0 == k;
      }
    }
  }

  lemma NoSum()
    ensures Sum([]) == None
  {
  }

  // --- the aggregates written out ----------------------------------------------------------------------

  /** SUM: the sums from the end, each value that is there added once; NULL if none is. */
  lemma {:induction false} SumWrittenOut(xs: seq<Option<real>>) returns (sums: seq<real>)
    ensures |sums| == |xs| + 1 && sums[|xs|] == 0.0
    ensures forall i :: 0 <= i < |xs| ==> sums[i] == sums[i + 1] + if xs[i].Some? then xs[i].value else 0.0
    ensures if forall i :: 0 <= i < |xs| ==> xs[i].None? then Sum(xs).None? else Sum(xs) == Some(sums[0])
  {
    if xs == [] {
      sums := [0.0];
    } else {
      var rest := SumWrittenOut(xs[1..]);
      forall i | 1 <= i < |xs| ensures xs[i] == xs[1..][i - 1] {}
      sums := [rest[0] + if xs[0].Some? then xs[0].value else 0.0] + rest;
      AllNone(xs[1..], rest);
    }
  }

  lemma {:induction false} AllNone(xs: seq<Option<real>>, sums: seq<real>)
    requires |sums| == |xs| + 1 && sums[|xs|] == 0.0
    requires forall i :: 0 <= i < |xs| ==> sums[i] == sums[i + 1] + if xs[i].Some? then xs[i].value else 0.0
    ensures (forall i :: 0 <= i < |xs| ==> xs[i].None?) ==> sums[0] == 0.0
  {
    if xs != [] {
      forall i | 1 <= i < |xs| ensures xs[i] == xs[1..][i - 1] {}
      AllNone(xs[1..], sums[1..]);
    }
  }

  /** AVG: the sum over the number of values that are there. */
  lemma {:induction false} AvgWrittenOut(xs: seq<Option<real>>) returns (counts: seq<nat>)
    ensures |counts| == |xs| + 1 && counts[|xs|] == 0
    ensures forall i :: 0 <= i < |xs| ==> counts[i] == counts[i + 1] + if xs[i].Some? then 1 else 0
    ensures counts[0] == CountOf(xs) && (Avg(xs).Some? <==> Sum(xs).Some?)
    ensures Avg(xs).Some? ==> counts[0] > 0 && Avg(xs).value == Sum(xs).value / counts[0] as real
  {
    SumCounts(xs);
    counts := Counted(xs);
  }

  lemma {:induction false} Counted(xs: seq<Option<real>>) returns (counts: seq<nat>)
    ensures |counts| == |xs| + 1 && counts[|xs|] == 0 && counts[0] == CountOf(xs)
    ensures forall i :: 0 <= i < |xs| ==> counts[i] == counts[i + 1] + if xs[i].Some? then 1 else 0
  {
    if xs == [] {
      counts := [0];
    } else {
      var rest := Counted(xs[1..]);
      forall i | 1 <= i < |xs| ensures xs[i] == xs[1..][i - 1] {}
      counts := [CountOf(xs)] + rest;
    }
  }

  /** `at` are the indices from `from` up to `n` that are kept, in order. */
  ghost predicate Selects(at: seq<nat>, from: nat, n: nat, keep: nat -> bool) {
    && (forall i, j :: 0 <= i < j < |at| ==> at[i] < at[j])
    && forall i: nat :: i in at <==> from <= i < n && keep(i)
  }

  lemma SelectFirst(at: seq<nat>, from: nat, n: nat, keep: nat -> bool)
    requires from < n && Selects(at, from + 1, n, keep)
    ensures Selects(if keep(from) then [from] + at else at, from, n, keep)
  {
    forall j | 0 <= j < |at| ensures from < at[j] { assert at[j] in at; }
  }

  /** The values a group holds are those of the rows with its key, in order. */
  lemma {:induction false} ValuesAt<K, V>(rows: seq<(K, V)>, k: K, from: nat) returns (at: seq<nat>)
    requires from <= |rows|
    ensures Selects(at, from, |rows|, (i: nat) => i < |rows| && rows[i].0 == k)
    ensures |ValuesOf(rows[from..], k)| == |at|
    ensures forall j :: 0 <= j < |at| ==> at[j] < |rows| && ValuesOf(rows[from..], k)[j] == rows[at[j]].1
    decreases |rows| - from
  {
    at := [];
    if from < |rows| {
      var rest := ValuesAt(rows, k, from + 1);
      assert rows[from..][1..] == rows[from + 1..];
      SelectFirst(rest, from, |rows|, (i: nat) => i < |rows| && rows[i].0 == k);
      at := if rows[from].0 == k then [from] + rest else rest;
      assert ValuesOf(rows[from..], k) == (if at == rest then [] else [rows[from].1]) + ValuesOf(rows[from + 1..], k);
      hide ValuesOf;
    }
  }

  /** A trace's own cost: the sums from the end over the observations of the trace. */
  lemma {:induction false} OwnCostWrittenOut(t: TraceRow, os: seq<CostRow>) returns (sums: seq<real>)
    ensures |sums| == |os| + 1 && sums[|os|] == 0.0
    ensures forall i :: 0 <= i < |os| ==>
              sums[i] == sums[i + 1] + if os[i].trace == t.id && os[i].cost.Some? then os[i].cost.value else 0.0
    ensures OwnCost(t, os).Some? <==> exists i :: 0 <= i < |os| && os[i].trace == t.id && os[i].cost.Some?
    ensures if OwnCost(t, os).Some? then OwnCost(t, os).value == sums[0] else sums[0] == 0.0
  {
    if os == [] {
      sums := [0.0];
    } else {
      var rest := OwnCostWrittenOut(t, os[1..]);
      forall i | 1 <= i < |os| ensures os[i] == os[1..][i - 1] {}
      sums := [rest[0] + if os[0].trace == t.id && os[0].cost.Some? then os[0].cost.value else 0.0] + rest;
    }
  }

  /** The values of a trace's own scores, in order. */
  lemma {:induction false} OwnValuesAt(t: TraceRow, ss: seq<ScoreRow>, from: nat) returns (at: seq<nat>)
    requires from <= |ss|
    ensures Selects(at, from, |ss|, (i: nat) => i < |ss| && ss[i].trace == t.id && ss[i].value.Some?)
    ensures |OwnValues(t, ss[from..])| == |at|
    ensures forall j :: 0 <= j < |at| ==> at[j] < |ss| && OwnValues(t, ss[from..])[j] == ss[at[j]].value
    decreases |ss| - from
  {
    at := [];
    if from < |ss| {
      var rest := OwnValuesAt(t, ss, from + 1);
      assert ss[from..][1..] == ss[from + 1..];
      SelectFirst(rest, from, |ss|, (i: nat) => i < |ss| && ss[i].trace == t.id && ss[i].value.Some?);
      at := if ss[from].trace == t.id && ss[from].value.Some? then [from] + rest else rest;
      assert OwnValues(t, ss[from..]) == (if at == rest then [] else [ss[from].value]) + OwnValues(t, ss[from + 1..]);
      hide OwnValues;
    }
  }

  /** A row per day: it counts the traces of that day of 86400 seconds, and costs what they cost. */
  lemma DayWrittenOut(rows: seq<JoinedRow>, n: nat) returns (at: seq<nat>, costs: seq<Option<real>>)
    requires n < |PerDay(rows)|
    ensures var d := PerDay(rows)[n];
            && Selects(at, 0, |rows|, (i: nat) =>
                 i < |rows| && d.day * 86400 <= rows[i].0.trace.at < (d.day + 1) * 86400)
            && d.traces == |at| == |costs| && d.cost == Sum(costs)
            && forall j :: 0 <= j < |at| ==> at[j] < |rows| && costs[j] == rows[at[j]].0.cost
  {
    hide GroupBy, ValuesOf, Sum;
    var dated := Dated(rows);
    var groups := GroupBy(dated);
    var k := groups[n].0;
    GroupsHoldValues(dated, k);
    assert dated[0..] == dated;
    at := ValuesAt(dated, k, 0);
    costs := groups[n].1;
    forall i: nat | i < |rows| ensures dated[i].0 == k <==> k * 86400 <= rows[i].0.trace.at < (k + 1) * 86400 {}
    assert forall j :: 0 <= j < |at| ==> at[j] in at;
  }

  /** The costs of a run's own items, in order. */
  lemma {:induction false} RunCostsAt(items: seq<Item>, run: string, os: seq<CostRow>, from: nat) returns (at: seq<nat>)
    requires from <= |items|
    ensures Selects(at, from, |items|, (i: nat) => i < |items| && items[i].run == run)
    ensures |RunCosts(items[from..], run, os)| == |at|
    ensures forall j :: 0 <= j < |at| ==> at[j] < |items| && RunCosts(items[from..], run, os)[j] == OwnCost(items[at[j]].trace, os)
    decreases |items| - from
  {
    hide OwnCost;
    at := [];
    if from < |items| {
      var rest := RunCostsAt(items, run, os, from + 1);
      assert items[from..][1..] == items[from + 1..];
      SelectFirst(rest, from, |items|, (i: nat) => i < |items| && items[i].run == run);
      at := if items[from].run == run then [from] + rest else rest;
    }
  }

  /** An item's scores of one name: those that hang on its trace or on the item itself. */
  lemma {:induction false} ScoresNamedAt(item: Item, ss: seq<NamedScore>, name: string, from: nat) returns (at: seq<nat>)
    requires from <= |ss|
    ensures Selects(at, from, |ss|, (i: nat) =>
              i < |ss| && ss[i].name == name && (ss[i].trace == Some(item.trace.id) || ss[i].item == Some(item.id)))
    ensures |ScoresNamed(item, ss[from..], name)| == |at|
    ensures forall j :: 0 <= j < |at| ==> at[j] < |ss| && ScoresNamed(item, ss[from..], name)[j] == ss[at[j]].value
    decreases |ss| - from
  {
    at := [];
    if from < |ss| {
      var rest := ScoresNamedAt(item, ss, name, from + 1);
      assert ss[from..][1..] == ss[from + 1..];
      var keep := (i: nat) =>
        i < |ss| && ss[i].name == name && (ss[i].trace == Some(item.trace.id) || ss[i].item == Some(item.id));
      SelectFirst(rest, from, |ss|, keep);
      at := if keep(from) then [from] + rest else rest;
    }
  }

  /** A run's scores of one name: its own items' one after the other. */
  lemma {:induction false} RunScoresWrittenOut(items: seq<Item>, run: string, ss: seq<NamedScore>, name: string)
    returns (tails: seq<seq<Option<real>>>)
    ensures |tails| == |items| + 1 && tails[|items|] == [] && tails[0] == RunScores(items, run, ss, name)
    ensures forall i :: 0 <= i < |items| ==>
              tails[i] == (if items[i].run == run then ScoresNamed(items[i], ss, name) else []) + tails[i + 1]
  {
    hide ScoresNamed;
    if items == [] {
      tails := [[]];
    } else {
      var rest := RunScoresWrittenOut(items[1..], run, ss, name);
      forall i | 1 <= i < |items| ensures items[i] == items[1..][i - 1] {}
      tails := [RunScores(items, run, ss, name)] + rest;
    }
  }
}
