/** Model matching, exact cost arithmetic and the price cache.

    Prices are `real`, as the source's are Decimal. The regex engine is a parameter. */
module Pricing {
  import opened Tables
  import opened Events

  datatype ModelPrice = ModelPrice(
    modelId: string, modelName: string, projectId: Option<string>, pattern: string, startDate: Option<int>,
    prices: map<string, real>)

  datatype Regex = Regex(compiles: string -> bool, matches: (string, string) -> bool)

  // --- as-of matching ------------------------------------------------------------

  predicate Started(m: ModelPrice, at: int) {
    m.startDate.None? || m.startDate.value <= at
  }

  predicate Applies(m: ModelPrice, regex: Regex, name: string, project: string, at: int) {
    && (m.projectId.None? || m.projectId.value == project)
    && regex.matches(m.pattern, name)
    && Started(m, at)
  }

  function Candidates(models: seq<ModelPrice>, regex: Regex, name: string, project: string, at: int)
    : (cs: seq<ModelPrice>)
    ensures forall m :: m in cs <==> m in models && Applies(m, regex, name, project, at)
  {
    if models == [] then []
    else
      var init := Candidates(models[..|models| - 1], regex, name, project, at);
      var last := models[|models| - 1];
      assert models == models[..|models| - 1] + [last];
      if Applies(last, regex, name, project, at) then init + [last] else init
  }

  /** `a` has the greater (is a project override, start date) key; no date is the earliest. */
  predicate Outranks(a: ModelPrice, b: ModelPrice) {
    if a.projectId.Some? != b.projectId.Some? then a.projectId.Some?
    else a.startDate.Some? && (b.startDate.None? || b.startDate.value < a.startDate.value)
  }

  /** Python's `max`: the first candidate no other outranks. */
  function Best(cs: seq<ModelPrice>): (best: ModelPrice)
    requires cs != []
    ensures best in cs
    ensures forall m :: m in cs ==> !Outranks(m, best)
  {
    var last := cs[|cs| - 1];
    assert cs == cs[..|cs| - 1] + [last];
    if |cs| == 1 then last
    else
      var best := Best(cs[..|cs| - 1]);
      if Outranks(last, best) then last else best
  }

  function Match(models: seq<ModelPrice>, regex: Regex, name: string, project: string, at: int)
    : (found: Option<ModelPrice>)
    ensures found.Some? ==> found.value in models && Applies(found.value, regex, name, project, at)
    ensures found.Some? ==> forall m :: m in models && Applies(m, regex, name, project, at) ==>
          !Outranks(m, found.value)
    ensures found.None? <==> name == "" || forall m :: m in models ==> !Applies(m, regex, name, project, at)
  {
    var cs := Candidates(models, regex, name, project, at);
    if name == "" || cs == [] then None
    else
      assert cs[0] in cs;
      Some(Best(cs))
  }

  predicate FirstBest(models: seq<ModelPrice>, regex: Regex, name: string, project: string, at: int, i: nat) {
    && i < |models| && Applies(models[i], regex, name, project, at)
    && forall j :: 0 <= j < |models| && Applies(models[j], regex, name, project, at) ==>
         !Outranks(models[j], models[i]) && (j < i ==> Outranks(models[i], models[j]))
  }

  lemma StillFirstBest(models: seq<ModelPrice>, regex: Regex, name: string, project: string, at: int, i: nat)
    requires models != [] && FirstBest(models[..|models| - 1], regex, name, project, at, i)
    ensures var last := models[|models| - 1];
            if !Applies(last, regex, name, project, at) || !Outranks(last, models[i])
            then FirstBest(models, regex, name, project, at, i)
            else FirstBest(models, regex, name, project, at, |models| - 1)
  {
    hide Applies;
    var n := |models| - 1;
    forall j | 0 <= j < n ensures models[..n][j] == models[j] {}
  }

  lemma {:induction false} BestAt(models: seq<ModelPrice>, regex: Regex, name: string, project: string, at: int)
    returns (i: nat)
    requires Candidates(models, regex, name, project, at) != []
    ensures FirstBest(models, regex, name, project, at, i) && models[i] == Best(Candidates(models, regex, name, project, at))
  {
    hide Applies;
    var n := |models| - 1;
    var init := Candidates(models[..n], regex, name, project, at);
    if init == [] {
      i := n;
      forall j | 0 <= j < n ensures !Applies(models[j], regex, name, project, at) {
        assert models[j] == models[..n][j] && models[j] !in init;
      }
    } else {
      var before := BestAt(models[..n], regex, name, project, at);
      StillFirstBest(models, regex, name, project, at, before);
      i := if Applies(models[n], regex, name, project, at) && Outranks(models[n], models[before]) then n else before;
      if Applies(models[n], regex, name, project, at) {
        assert (init + [models[n]])[..|init|] == init;
      }
    }
  }

  /** The row may price the observation: it is everybody's or the project's own, its pattern
      matches, and it has no start date or one that is past. */
  predicate May(m: ModelPrice, regex: Regex, name: string, project: string, at: int) {
    && (m.projectId == None || m.projectId == Some(project)) && regex.matches(m.pattern, name)
    && (m.startDate.Some? ==> m.startDate.value <= at)
  }

  /** The match, written out: the row at `i` may price the observation. A project's own row goes
      before everybody's; among the like the later start date, and a date before none; among those
      still equal the first in the cache. */
  lemma MatchWrittenOut(models: seq<ModelPrice>, regex: Regex, name: string, project: string, at: int) returns (i: nat)
    requires Match(models, regex, name, project, at).Some?
    ensures i < |models| && Match(models, regex, name, project, at) == Some(models[i])
    ensures name != "" && May(models[i], regex, name, project, at)
    ensures forall j: nat :: j < |models| && May(models[j], regex, name, project, at) ==>
              && (models[j].projectId.Some? ==> models[i].projectId.Some?)
              && (models[j].projectId.Some? == models[i].projectId.Some? ==>
                    && (models[j].startDate.Some? ==>
                          models[i].startDate.Some? && models[j].startDate.value <= models[i].startDate.value)
                    && (models[j].startDate == models[i].startDate ==> i <= j))
  {
    i := BestAt(models, regex, name, project, at);
    forall m ensures Applies(m, regex, name, project, at) <==> May(m, regex, name, project, at) {}
  }

  /** And there is no match exactly when no row may. */
  lemma NoMatchIff(models: seq<ModelPrice>, regex: Regex, name: string, project: string, at: int)
    ensures Match(models, regex, name, project, at).None? <==>
            name == "" || forall m :: m in models ==> !May(m, regex, name, project, at)
  {
    forall m ensures Applies(m, regex, name, project, at) <==> May(m, regex, name, project, at) {}
  }

  /** The price rows in force at `at`. */
  function InForce(models: seq<ModelPrice>, at: int): seq<ModelPrice> {
    if models == [] then []
    else
      InForce(models[..|models| - 1], at) + if Started(models[|models| - 1], at) then [models[|models| - 1]] else []
  }

  lemma {:induction false} CandidatesInForce(models: seq<ModelPrice>, regex: Regex, name: string, project: string,
                                             at: int)
    ensures Candidates(models, regex, name, project, at) == Candidates(InForce(models, at), regex, name, project, at)
  {
    if models != [] {
      var last := models[|models| - 1];
      var init := InForce(models[..|models| - 1], at);
      CandidatesInForce(models[..|models| - 1], regex, name, project, at);
      if Started(last, at) {
        assert (init + [last])[..|init + [last]| - 1] == init;
      } else {
        assert init + [] == init;
      }
    }
  }

  /** Price rows dated after the observation never matter: two tables with the same rows
      in force at `at` match alike, wherever later rows were added. */
  lemma MatchIgnoresLaterPrices(before: seq<ModelPrice>, after: seq<ModelPrice>, regex: Regex, name: string,
                                project: string, at: int)
    requires InForce(before, at) == InForce(after, at)
    ensures Match(before, regex, name, project, at) == Match(after, regex, name, project, at)
  {
    CandidatesInForce(before, regex, name, project, at);
    CandidatesInForce(after, regex, name, project, at);
  }

  /** With no two applicable rows of equal rank, the match does not depend on the order
      in which the query returned the rows. */
  lemma MatchIsOrderFree(models: seq<ModelPrice>, shuffled: seq<ModelPrice>, regex: Regex, name: string,
                         project: string, at: int)
    requires forall m :: m in models <==> m in shuffled
    requires forall a, b :: a in models && b in models && a != b &&
                            Applies(a, regex, name, project, at) && Applies(b, regex, name, project, at)
                            ==> Outranks(a, b) || Outranks(b, a)
    ensures Match(models, regex, name, project, at) == Match(shuffled, regex, name, project, at)
  {
    var found := Match(models, regex, name, project, at);
    if found.Some? {
      assert found.value in shuffled;
    }
  }

  // --- exact cost ----------------------------------------------------------------

  const AGGREGATE_USAGE_KEYS: set<string> := {"total", "total_tokens"}

  predicate Priceable(usageType: string, prices: map<string, real>) {
    usageType !in AGGREGATE_USAGE_KEYS && usageType in prices
  }

  datatype Costing = Costing(details: seq<(string, real)>, total: real)

  /** Tokens times unit price. */
  function Charge(count: int, unit: real): real {
    count as real * unit
  }

  /** What one usage entry adds to the cost details: nothing unless it is priceable. */
  function CostLine(u: (string, int), prices: map<string, real>): seq<(string, real)> {
    if Priceable(u.0, prices) then [(u.0, Charge(u.1, prices[u.0]))] else []
  }

  function CostDetailsOf(usage: seq<(string, int)>, prices: map<string, real>): seq<(string, real)> {
    if usage == [] then []
    else
      CostDetailsOf(usage[..|usage| - 1], prices) + CostLine(usage[|usage| - 1], prices)
  }

  function PricedSum(usage: seq<(string, int)>, prices: map<string, real>): real {
    if usage == [] then 0.0
    else
      var last := usage[|usage| - 1];
      PricedSum(usage[..|usage| - 1], prices) +
      if Priceable(last.0, prices) then Charge(last.1, prices[last.0]) else 0.0
  }

  function CostOf(usage: seq<(string, int)>, price: Option<ModelPrice>): Option<Costing> {
    if price.None? || CostDetailsOf(usage, price.value.prices) == [] then None
    else Some(Costing(CostDetailsOf(usage, price.value.prices), PricedSum(usage, price.value.prices)))
  }

  /** The source's loop. Its total is the exact sum of the amounts it reports, and there is
      no result exactly when no key of the usage is priceable. */
  method ComputeCost(usage: seq<(string, int)>, price: Option<ModelPrice>) returns (r: Option<Costing>)
    ensures r == CostOf(usage, price)
    ensures r.Some? ==> r.value.total == SumCosts(r.value.details)
    ensures r.None? <==> price.None? || forall u :: u in usage ==> !Priceable(u.0, price.value.prices)
  {
    if usage == [] || price.None? || price.value.prices == map[] {
      if price.Some? { NothingPriceable(usage, price.value.prices); }
      return None;
    }
    var prices := price.value.prices;
    var details: seq<(string, real)> := [];
    var total := 0.0;
    for i := 0 to |usage|
      invariant details == CostDetailsOf(usage[..i], prices) && total == PricedSum(usage[..i], prices)
      invariant total == SumCosts(details)
    {
      ghost var seen := usage[..i + 1];
      assert seen[..|seen| - 1] == usage[..i] && seen[|seen| - 1] == usage[i];
      assert CostDetailsOf(seen, prices) == CostDetailsOf(usage[..i], prices) + CostLine(usage[i], prices);
      var usageType, count := usage[i].0, usage[i].1;
      if usageType !in AGGREGATE_USAGE_KEYS && usageType in prices {
        var amount := Charge(count, prices[usageType]);
        assert (details + [(usageType, amount)])[..|details|] == details;
        assert CostLine(usage[i], prices) == [(usageType, amount)];
        details := details + [(usageType, amount)];
        total := total + amount;
      } else {
        assert CostLine(usage[i], prices) == [];
        assert details + [] == details;
      }
    }
    assert usage[..|usage|] == usage;
    NothingPriceable(usage, prices);
    return if details == [] then None else Some(Costing(details, total));
  }

  lemma {:induction false} NothingPriceable(usage: seq<(string, int)>, prices: map<string, real>)
    ensures CostDetailsOf(usage, prices) == [] <==> forall u :: u in usage ==> !Priceable(u.0, prices)
  {
    if usage != [] {
      NothingPriceable(usage[..|usage| - 1], prices);
      assert usage == usage[..|usage| - 1] + [usage[|usage| - 1]];
    }
  }

  /** What an entry adds, in full. */
  function Added(u: (string, int), prices: map<string, real>): real {
    if u.0 != "total" && u.0 != "total_tokens" && u.0 in prices then u.1 as real * prices[u.0] else 0.0
  }

  lemma AddedLine(u: (string, int), prices: map<string, real>)
    ensures Priceable(u.0, prices) <==> u.0 != "total" && u.0 != "total_tokens" && u.0 in prices
    ensures CostLine(u, prices) == if Priceable(u.0, prices) then [(u.0, Added(u, prices))] else []
    ensures Added(u, prices) == if Priceable(u.0, prices) then Charge(u.1, prices[u.0]) else 0.0
  {
    assert Priceable(u.0, prices) ==> Charge(u.1, prices[u.0]) == Added(u, prices);
  }

  lemma {:induction false} RunningSums(usage: seq<(string, int)>, prices: map<string, real>) returns (sums: seq<real>)
    ensures |sums| == |usage| + 1 && sums[0] == 0.0 && PricedSum(usage, prices) == sums[|usage|]
    ensures forall i :: 0 <= i < |usage| ==> sums[i + 1] == sums[i] + Added(usage[i], prices)
  {
    hide Added, Charge, Priceable;
    if usage == [] {
      sums := [0.0];
    } else {
      var n := |usage| - 1;
      var before := RunningSums(usage[..n], prices);
      AddedLine(usage[n], prices);
      sums := before + [before[n] + Added(usage[n], prices)];
    }
  }

  /** The total written out: the last of running sums to which each usage entry adds tokens times
      unit price, unless its key is an aggregate or has no price. */
  lemma TotalWrittenOut(usage: seq<(string, int)>, price: ModelPrice) returns (sums: seq<real>)
    ensures |sums| == |usage| + 1 && sums[0] == 0.0
    ensures forall i :: 0 <= i < |usage| ==>
              sums[i + 1] == sums[i] +
                if usage[i].0 != "total" && usage[i].0 != "total_tokens" && usage[i].0 in price.prices
                then usage[i].1 as real * price.prices[usage[i].0] else 0.0
    ensures CostOf(usage, Some(price)).Some? ==> CostOf(usage, Some(price)).value.total == sums[|usage|]
  {
    hide PricedSum;
    sums := RunningSums(usage, price.prices);
  }

  lemma {:induction false} ReportedAt(usage: seq<(string, int)>, prices: map<string, real>) returns (at: seq<nat>)
    ensures forall i, j :: 0 <= i < j < |at| ==> at[i] < at[j]
    ensures forall i: nat :: i in at <==> i < |usage| && Priceable(usage[i].0, prices)
    ensures |CostDetailsOf(usage, prices)| == |at|
    ensures forall j :: 0 <= j < |at| ==>
              at[j] < |usage| && CostDetailsOf(usage, prices)[j] == (usage[at[j]].0, Added(usage[at[j]], prices))
  {
    hide Added, Charge, Priceable;
    if usage == [] {
      at := [];
    } else {
      var n := |usage| - 1;
      var before := ReportedAt(usage[..n], prices);
      AddedLine(usage[n], prices);
      assert CostDetailsOf(usage, prices) == CostDetailsOf(usage[..n], prices) + CostLine(usage[n], prices);
      hide CostDetailsOf, CostLine;
      assert forall j :: 0 <= j < |before| ==> before[j] in before;
      at := before + if Priceable(usage[n].0, prices) then [n] else [];
    }
  }

  /** The amounts written out: `at` are the entries whose key is no aggregate and has a price, in
      order, and each amount is the product of its tokens and that price. Without such an entry
      there is no cost. */
  lemma DetailsWrittenOut(usage: seq<(string, int)>, price: ModelPrice) returns (at: seq<nat>)
    ensures forall i, j :: 0 <= i < j < |at| ==> at[i] < at[j]
    ensures forall i: nat :: i in at <==>
              i < |usage| && usage[i].0 != "total" && usage[i].0 != "total_tokens" && usage[i].0 in price.prices
    ensures CostOf(usage, Some(price)).Some? <==> at != []
    ensures at != [] ==>
              var details := CostOf(usage, Some(price)).value.details;
              && |details| == |at|
              && forall j :: 0 <= j < |at| ==>
                   at[j] < |usage| && usage[at[j]].0 in price.prices &&
                   details[j] == (usage[at[j]].0, usage[at[j]].1 as real * price.prices[usage[at[j]].0])
  {
    hide CostDetailsOf;
    at := ReportedAt(usage, price.prices);
    forall j | 0 <= j < |at|
      ensures usage[at[j]].0 in price.prices
      ensures Added(usage[at[j]], price.prices) == usage[at[j]].1 as real * price.prices[usage[at[j]].0]
    {
      assert at[j] in at;
    }
  }

  predicate DistinctKeys(usage: seq<(string, int)>) {
    forall i, j :: 0 <= i < j < |usage| ==> usage[i].0 != usage[j].0
  }

  /** The tokens of one kind in a usage object; none when the key is absent. */
  function Tokens(usage: seq<(string, int)>, usageType: string): int {
    if usage == [] then 0
    else if usage[|usage| - 1].0 == usageType then usage[|usage| - 1].1
    else Tokens(usage[..|usage| - 1], usageType)
  }

  function BillFor(usage: seq<(string, int)>, prices: map<string, real>, kinds: seq<string>): real
    requires forall k :: k in kinds ==> k in prices
  {
    if kinds == [] then 0.0
    else
      var k := kinds[|kinds| - 1];
      BillFor(usage, prices, kinds[..|kinds| - 1]) + Charge(Tokens(usage, k), prices[k])
  }

  /** `kinds` lists the priceable keys once each. */
  ghost predicate ListsPriceable(kinds: seq<string>, prices: map<string, real>) {
    && (forall k :: k in kinds <==> Priceable(k, prices))
    && (forall i, j :: 0 <= i < j < |kinds| ==> kinds[i] != kinds[j])
  }

  lemma {:induction false} AbsentKey(usage: seq<(string, int)>, k: string)
    requires forall u :: u in usage ==> u.0 != k
    ensures Tokens(usage, k) == 0
  {
    if usage != [] {
      AbsentKey(usage[..|usage| - 1], k);
    }
  }

  /** A new key of a usage object adds its own amount to the bill, and nothing else. */
  lemma {:induction false} BillGrows(usage: seq<(string, int)>, last: (string, int), prices: map<string, real>,
                                     kinds: seq<string>)
    requires DistinctKeys(usage + [last])
    requires forall k :: k in kinds ==> k in prices
    requires forall i, j :: 0 <= i < j < |kinds| ==> kinds[i] != kinds[j]
    ensures BillFor(usage + [last], prices, kinds) ==
            BillFor(usage, prices, kinds) + if last.0 in kinds then Charge(last.1, prices[last.0]) else 0.0
  {
    if kinds != [] {
      var k := kinds[|kinds| - 1];
      BillGrows(usage, last, prices, kinds[..|kinds| - 1]);
      assert (usage + [last])[..|usage|] == usage;
      if k == last.0 {
        forall u | u in usage ensures u.0 != k {
          var i :| 0 <= i < |usage| && usage[i] == u;
          assert (usage + [last])[i].0 != (usage + [last])[|usage|].0;
        }
        AbsentKey(usage, k);
      }
      assert kinds == kinds[..|kinds| - 1] + [k];
    }
  }

  lemma {:induction false} SumIsBill(usage: seq<(string, int)>, prices: map<string, real>, kinds: seq<string>)
    requires DistinctKeys(usage) && ListsPriceable(kinds, prices)
    ensures PricedSum(usage, prices) == BillFor(usage, prices, kinds)
  {
    if usage == [] {
      NothingBilled(prices, kinds);
    } else {
      var init, last := usage[..|usage| - 1], usage[|usage| - 1];
      assert usage == init + [last];
      SumIsBill(init, prices, kinds);
      BillGrows(init, last, prices, kinds);
    }
  }

  lemma {:induction false} NothingBilled(prices: map<string, real>, kinds: seq<string>)
    requires forall k :: k in kinds ==> k in prices
    ensures BillFor([], prices, kinds) == 0.0
  {
    if kinds != [] {
      NothingBilled(prices, kinds[..|kinds| - 1]);
    }
  }

  lemma {:induction false} BillsAdd(u: seq<(string, int)>, v: seq<(string, int)>, w: seq<(string, int)>,
                                    prices: map<string, real>, kinds: seq<string>)
    requires forall k :: k in kinds ==> k in prices
    requires forall k :: Tokens(w, k) == Tokens(u, k) + Tokens(v, k)
    ensures BillFor(w, prices, kinds) == BillFor(u, prices, kinds) + BillFor(v, prices, kinds)
  {
    if kinds != [] {
      var k := kinds[|kinds| - 1];
      BillsAdd(u, v, w, prices, kinds[..|kinds| - 1]);
      assert Charge(Tokens(w, k), prices[k]) == Charge(Tokens(u, k), prices[k]) + Charge(Tokens(v, k), prices[k]);
    }
  }

  lemma {:induction false} ListSet(s: set<string>) returns (list: seq<string>)
    ensures forall k :: k in list <==> k in s
    ensures forall i, j :: 0 <= i < j < |list| ==> list[i] != list[j]
    decreases s
  {
    if s == {} {
      list := [];
    } else {
      var k :| k in s;
      var rest := ListSet(s - {k});
      list := rest + [k];
    }
  }

  /** Cost is additive: a usage object whose counts are key by key the sums of two others'
      costs exactly the sum of theirs. */
  lemma CostIsAdditive(u: seq<(string, int)>, v: seq<(string, int)>, w: seq<(string, int)>, prices: map<string, real>)
    requires DistinctKeys(u) && DistinctKeys(v) && DistinctKeys(w)
    requires forall k :: Tokens(w, k) == Tokens(u, k) + Tokens(v, k)
    ensures PricedSum(w, prices) == PricedSum(u, prices) + PricedSum(v, prices)
  {
    var kinds := ListSet(set k | k in prices && Priceable(k, prices));
    SumIsBill(u, prices, kinds);
    SumIsBill(v, prices, kinds);
    SumIsBill(w, prices, kinds);
    BillsAdd(u, v, w, prices, kinds);
  }

  // --- pricing an observation row ---------------------------------------------------

  /** RESOLVE_SELECT: a generation with usage that the client did not price. */
  predicate Resolvable(row: Row) {
    row[Type] == Text("GENERATION") && row[UsageDetails].Counts? && row[ProvidedCostDetails] == Null
  }

  function TextOf(v: Value): string {
    if v.Text? then v.text else ""
  }

  function PriceFor(row: Row, project: string, models: seq<ModelPrice>, regex: Regex): Option<ModelPrice>
    requires row[StartTime].Time?
  {
    Match(models, regex, TextOf(row[ProvidedModelName]), project, row[StartTime].at)
  }

  function Resolved(row: Row, project: string, models: seq<ModelPrice>, regex: Regex): Row {
    if !Resolvable(row) || !row[StartTime].Time? then row
    else
      var price := PriceFor(row, project, models, regex);
      match CostOf(row[UsageDetails].counts, price)
      case None => row
      case Some(cost) =>
        row[InternalModelId := Text(price.value.modelId)]
        [CostDetails := Costs(cost.details)]
        [TotalCost := Amount(cost.total)]
  }

  /** `resolve_costs` over the rows under `keys`. */
  function ResolveAll(observations: Table, keys: set<Key>, models: seq<ModelPrice>, regex: Regex): Table {
    map k | k in observations ::
      if k in keys then Resolved(observations[k], k.project, models, regex) else observations[k]
  }

  /** Re-costing an observation after prices dated later than its start were added gives
      the row it had. */
  lemma RecostingIgnoresLaterPrices(row: Row, project: string, before: seq<ModelPrice>, after: seq<ModelPrice>,
                                    regex: Regex)
    requires row[StartTime].Time? && InForce(before, row[StartTime].at) == InForce(after, row[StartTime].at)
    ensures Resolved(Resolved(row, project, before, regex), project, after, regex) == Resolved(row, project, before, regex)
  {
    hide Match, CostOf;
    MatchIgnoresLaterPrices(before, after, regex, TextOf(row[ProvidedModelName]), project, row[StartTime].at);
    var once := Resolved(row, project, before, regex);
    assert Resolved(once, project, after, regex) == once;
  }
}
