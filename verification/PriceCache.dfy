/** The in-process cache of the model and price tables. */
module PriceCache {
  import opened Tables
  import opened Events
  import opened Pricing
  import opened Ingest

  datatype ModelDef = ModelDef(name: string, projectId: Option<string>, pattern: string, startDate: Option<int>)

  /** `models` by id, and `prices` by (model id, usage type), which is unique. */
  datatype PriceTables = PriceTables(models: map<string, ModelDef>, prices: map<(string, string), real>)

  /** One row of `models LEFT JOIN prices`. */
  datatype JoinRow = JoinRow(id: string, def: ModelDef, price: Option<(string, real)>)

  /** The rows of the left join, in any order. */
  ghost predicate IsLeftJoin(rows: seq<JoinRow>, tables: PriceTables) {
    && (forall r :: r in rows ==> r.id in tables.models && r.def == tables.models[r.id])
    && (forall r :: r in rows && r.price.Some? ==>
          (r.id, r.price.value.0) in tables.prices && tables.prices[(r.id, r.price.value.0)] == r.price.value.1)
    && (forall id :: id in tables.models ==> exists r :: r in rows && r.id == id)
    && (forall k :: k in tables.prices && k.0 in tables.models ==>
          exists r :: r in rows && r.id == k.0 && r.price == Some((k.1, tables.prices[k])))
  }

  function OwnPrices(tables: PriceTables, id: string): map<string, real> {
    map k | k in tables.prices && k.0 == id :: k.1 := tables.prices[k]
  }

  function PriceRow(tables: PriceTables, id: string): ModelPrice
    requires id in tables.models
  {
    var def := tables.models[id];
    ModelPrice(id, def.name, def.projectId, def.pattern, def.startDate, OwnPrices(tables, id))
  }

  /** `models` is a snapshot of the tables: every model whose pattern compiles, exactly once,
      with exactly its own prices. */
  ghost predicate IsSnapshot(models: seq<ModelPrice>, tables: PriceTables, regex: Regex) {
    && (forall m :: m in models ==>
          m.modelId in tables.models && regex.compiles(m.pattern) && m == PriceRow(tables, m.modelId))
    && (forall id :: id in tables.models && regex.compiles(tables.models[id].pattern) ==>
          PriceRow(tables, id) in models)
    && (forall i, j :: 0 <= i < j < |models| ==> models[i].modelId != models[j].modelId)
  }

  /** A snapshot, written out: each of its rows is a model's own definition with the prices filed
      under that model's id, and every model whose pattern compiles is there. */
  lemma SnapshotWrittenOut(models: seq<ModelPrice>, tables: PriceTables, regex: Regex, m: ModelPrice)
    requires IsSnapshot(models, tables, regex)
    ensures m in models ==>
              && m.modelId in tables.models && regex.compiles(tables.models[m.modelId].pattern)
              && m.modelName == tables.models[m.modelId].name && m.projectId == tables.models[m.modelId].projectId
              && m.pattern == tables.models[m.modelId].pattern && m.startDate == tables.models[m.modelId].startDate
              && (forall u :: u in m.prices <==> (m.modelId, u) in tables.prices)
              && forall u :: u in m.prices ==> m.prices[u] == tables.prices[(m.modelId, u)]
    ensures forall id :: id in tables.models && regex.compiles(tables.models[id].pattern) ==>
              exists n :: n in models && n.modelId == id
  {
    forall id | id in tables.models && regex.compiles(tables.models[id].pattern)
      ensures exists n :: n in models && n.modelId == id
    {
      assert PriceRow(tables, id) in models;
    }
  }

  /** An entry of the dict the rows are gathered into. */
  datatype Entry = Entry(def: ModelDef, prices: map<string, real>)

  /** The entry of `id` holds its definition and the prices of its rows among the first ones. */
  ghost predicate Gathered(id: string, e: Entry, rows: seq<JoinRow>, tables: PriceTables) {
    && id in tables.models && e.def == tables.models[id]
    && (forall u :: u in e.prices ==> (id, u) in tables.prices && e.prices[u] == tables.prices[(id, u)])
    && (forall r :: r in rows && r.id == id && r.price.Some? ==> r.price.value.0 in e.prices)
  }

  lemma AllGathered(id: string, e: Entry, rows: seq<JoinRow>, tables: PriceTables)
    requires IsLeftJoin(rows, tables) && Gathered(id, e, rows, tables)
    ensures e.prices == OwnPrices(tables, id)
  {
    forall u
      ensures u in e.prices <==> u in OwnPrices(tables, id)
      ensures u in e.prices ==> e.prices[u] == OwnPrices(tables, id)[u]
    {
      if (id, u) in tables.prices {
        var r :| r in rows && r.id == id && r.price == Some((u, tables.prices[(id, u)]));
      }
    }
  }

  /** The dict after one more row. */
  function AddRow(byModel: map<string, Entry>, r: JoinRow): map<string, Entry> {
    var e := if r.id in byModel then byModel[r.id] else Entry(r.def, map[]);
    byModel[r.id := if r.price.None? then e else e.(prices := e.prices[r.price.value.0 := r.price.value.1])]
  }

  ghost predicate GatheredAll(byModel: map<string, Entry>, rows: seq<JoinRow>, tables: PriceTables) {
    && (forall r :: r in rows ==> r.id in byModel)
    && (forall id :: id in byModel ==> Gathered(id, byModel[id], rows, tables))
  }

  lemma GatherStep(byModel: map<string, Entry>, done: seq<JoinRow>, r: JoinRow, rows: seq<JoinRow>, tables: PriceTables)
    requires IsLeftJoin(rows, tables) && r in rows && GatheredAll(byModel, done, tables)
    ensures GatheredAll(AddRow(byModel, r), done + [r], tables)
  {
    var after := AddRow(byModel, r);
    forall id | id in after ensures Gathered(id, after[id], done + [r], tables) {
      if id != r.id {
        assert Gathered(id, byModel[id], done, tables);
      }
    }
  }

  class ModelPriceCache {
    const ttl: int
    const regex: Regex
    var loadedAt: Option<int>
    var models: seq<ModelPrice>

    /** The tables as they were at each moment: any history of edits. */
    ghost const tablesAt: int -> PriceTables

    /** What is loaded is a snapshot of the tables at the moment of loading. */
    ghost predicate Valid()
      reads this
    {
      if loadedAt.None? then models == [] else IsSnapshot(models, tablesAt(loadedAt.value), regex)
    }

    constructor (ttl: int, regex: Regex, ghost tablesAt: int -> PriceTables)
      ensures Valid() && loadedAt == None && this.ttl == ttl && this.regex == regex && this.tablesAt == tablesAt
    {
      this.ttl, this.regex, this.tablesAt := ttl, regex, tablesAt;
      loadedAt, models := None, [];
    }

    /** The source's first loop: rows into a dict, first seen first. */
    method Gather(rows: seq<JoinRow>, ghost tables: PriceTables)
      returns (order: seq<string>, byModel: map<string, Entry>)
      requires IsLeftJoin(rows, tables)
      ensures forall id :: id in order <==> id in tables.models
      ensures forall i, j :: 0 <= i < j < |order| ==> order[i] != order[j]
      ensures forall id :: id in order ==>
                id in byModel && byModel[id].def == tables.models[id] && byModel[id].prices == OwnPrices(tables, id)
    {
      order, byModel := [], map[];
      for n := 0 to |rows|
        invariant forall id :: id in order <==> id in byModel
        invariant forall i, j :: 0 <= i < j < |order| ==> order[i] != order[j]
        invariant GatheredAll(byModel, rows[..n], tables)
      {
        var r := rows[n];
        assert rows[..n + 1] == rows[..n] + [r];
        GatherStep(byModel, rows[..n], r, rows, tables);
        if r.id !in byModel {
          order := order + [r.id];
        }
        byModel := AddRow(byModel, r);
      }
      assert rows[..|rows|] == rows;
      forall id | id in byModel ensures byModel[id].prices == OwnPrices(tables, id) {
        AllGathered(id, byModel[id], rows, tables);
      }
    }

    /** Rebuilds from the join `rows`, read at `now`. */
    method Reload(rows: seq<JoinRow>, now: int)
      requires IsLeftJoin(rows, tablesAt(now))
      modifies this
      ensures Valid() && loadedAt == Some(now)
    {
      ghost var tables := tablesAt(now);
      var order, byModel := Gather(rows, tables);
      var compiled: seq<ModelPrice> := [];
      for n := 0 to |order|
        invariant forall m :: m in compiled ==>
                    m.modelId in order[..n] && regex.compiles(m.pattern) && m == PriceRow(tables, m.modelId)
        invariant forall id :: id in order[..n] && regex.compiles(tables.models[id].pattern) ==>
                    PriceRow(tables, id) in compiled
        invariant forall i, j :: 0 <= i < j < |compiled| ==> compiled[i].modelId != compiled[j].modelId
      {
        var id := order[n];
        assert order[..n + 1] == order[..n] + [id];
        var e := byModel[id];
        if regex.compiles(e.def.pattern) {
          var m := ModelPrice(id, e.def.name, e.def.projectId, e.def.pattern, e.def.startDate, e.prices);
          assert m == PriceRow(tables, id);
          compiled := compiled + [m];
        }
      }
      assert order[..|order|] == order;
      models, loadedAt := compiled, Some(now);
    }

    /** `refresh`: `rows` is what the query would return at `now`, a reading of a clock that
        never goes back. Afterwards the models in use are a snapshot of the tables taken less
        than `ttl` ago, or just now, whatever edits and refreshes came before. */
    method Refresh(rows: seq<JoinRow>, now: int, force: bool)
      requires Valid() && IsLeftJoin(rows, tablesAt(now))
      requires loadedAt.Some? ==> loadedAt.value <= now
      modifies this
      ensures Valid() && loadedAt.Some? && loadedAt.value <= now
      ensures now - loadedAt.value < ttl || loadedAt.value == now
      ensures IsSnapshot(models, tablesAt(loadedAt.value), regex)
      ensures !force && old(loadedAt).Some? && now - old(loadedAt).value < ttl ==>
                models == old(models) && loadedAt == old(loadedAt)
      ensures force || old(loadedAt).None? || now - old(loadedAt).value >= ttl ==> loadedAt == Some(now)
    {
      if !force && loadedAt.Some? && now - loadedAt.value < ttl {
        return;
      }
      Reload(rows, now);
    }

    /** `resolve_costs`: the cache is refreshed first, so the rows are priced by a snapshot of
        the price tables taken less than `ttl` ago, or just now. */
    method ResolveCosts(conn: Connection, keys: set<Key>, rows: seq<JoinRow>, now: int)
      requires Valid() && IsLeftJoin(rows, tablesAt(now))
      requires loadedAt.Some? ==> loadedAt.value <= now
      modifies this, conn`observations
      ensures Valid() && (loadedAt.Some? ==> loadedAt.value <= now)
      ensures keys == {} ==> models == old(models) && loadedAt == old(loadedAt)
      ensures keys != {} ==>
                && loadedAt.Some? && IsSnapshot(models, tablesAt(loadedAt.value), regex)
                && (now - loadedAt.value < ttl || loadedAt.value == now)
      ensures conn.observations == ResolveAll(old(conn.observations), keys, models, regex)
    {
      if keys == {} {
        NothingResolved(conn.observations, models, regex);
        return;
      }
      Refresh(rows, now, false);
      conn.ResolveCosts(keys, models, regex);
    }

    /** `apply_events` with the cache: what the batch without prices writes, priced by the
        snapshot in use. A batch that fails, or touches no observation, leaves the cache be. */
    method ApplyEvents(conn: Connection, events: seq<Event>, now: int, rows: seq<JoinRow>, clock: int)
      returns (ok: bool)
      requires Valid() && IsLeftJoin(rows, tablesAt(clock))
      requires loadedAt.Some? ==> loadedAt.value <= clock
      modifies this, conn
      ensures Valid() && (loadedAt.Some? ==> loadedAt.value <= clock)
      ensures ok <==> Ingest.ApplyEvents(old(conn.Contents()), events, now, Some(Prices(models, regex))).Ok?
      ensures ok ==> conn.Contents() == Ingest.ApplyEvents(old(conn.Contents()), events, now, Some(Prices(models, regex))).value
      ensures !ok || Touched(events) == {} ==> models == old(models) && loadedAt == old(loadedAt)
      ensures ok && Touched(events) != {} ==>
                && loadedAt.Some? && IsSnapshot(models, tablesAt(loadedAt.value), regex)
                && (clock - loadedAt.value < ttl || loadedAt.value == clock)
    {
      hide Written, ResolveAll;
      ok := conn.Apply(events, now, None);
      if ok {
        ResolveCosts(conn, Touched(events), rows, clock);
      }
    }
  }

  lemma NothingResolved(observations: Table, models: seq<ModelPrice>, regex: Regex)
    ensures ResolveAll(observations, {}, models, regex) == observations
  {
  }

  /** Two snapshots of the same tables hold the same rows, whatever order the queries
      returned them in. */
  lemma SnapshotsAgree(xs: seq<ModelPrice>, ys: seq<ModelPrice>, tables: PriceTables, regex: Regex)
    requires IsSnapshot(xs, tables, regex) && IsSnapshot(ys, tables, regex)
    ensures forall m :: m in xs <==> m in ys
  {
    forall m ensures m in xs <==> m in ys {
      if m in xs {
        assert PriceRow(tables, m.modelId) in ys;
      }
      if m in ys {
        assert PriceRow(tables, m.modelId) in xs;
      }
    }
  }
}
