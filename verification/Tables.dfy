/** The three tables the ingest worker writes, and the three kinds of upsert it
    issues. A row holds a value for every column; SQL NULL is `Null`.

    PostgreSQL checks NOT NULL and CHECK constraints against the row proposed for
    insertion even when ON CONFLICT turns the statement into an update, and again
    against the row the update would store. `Exec` does both. */
module Tables {

  datatype Option<+T> = None | Some(value: T)

  datatype Result<+T> = Ok(value: T) | Err

  /** Columns of `traces` and `observations` (key columns apart). */
  datatype Column =
    | Name | Input | Output | Metadata | CreatedAt | UpdatedAt
    | UserId | SessionId | Timestamp | Tags | Release | Version | IsExperiment
    | TraceId | ParentId | Type | StartTime | EndTime | CompletionStartTime | Level
    | StatusMessage | ProvidedModelName | InternalModelId | ModelParameters
    | ProvidedUsageDetails | UsageDetails | ProvidedCostDetails | CostDetails | TotalCost
    | PromptName | PromptVersion

  const COLUMNS: set<Column> := set c: Column | true

  /** A column value. The pairs of `Counts` and `Costs` are a JSON object's, in order. */
  datatype Value =
    | Null
    | Text(text: string)
    | Time(at: int)
    | Whole(n: int)
    | Flag(on: bool)
    | Counts(counts: seq<(string, int)>)
    | Costs(costs: seq<(string, real)>)
    | Amount(amount: real)

  type Row = r: map<Column, Value> | r.Keys == COLUMNS
    witness map c | c in COLUMNS :: Null

  datatype Key = Key(project: string, id: string)

  type Table = map<Key, Row>

  datatype Write =
    | Merge(key: Key, proposed: Row, sent: set<Column>)     // SET c = COALESCE(excluded.c, c)
    | Patch(key: Key, proposed: Row, touched: set<Column>)  // SET c = excluded.c
    | Fill(key: Key, proposed: Row)                         // DO NOTHING

  /** The SET clause of a merge: the columns sent, and always `updated_at`. */
  function Updatable(sent: set<Column>): set<Column> {
    sent + {UpdatedAt} - {CreatedAt}
  }

  /** Does `w` replace column `c` of a row that is already there? */
  predicate Overwrites(w: Write, c: Column) {
    match w
    case Merge(_, proposed, sent) => c in Updatable(sent) && proposed[c] != Null
    case Patch(_, _, touched) => c in touched
    case Fill(_, _) => false
  }

  /** The row an update of `row` by `w` stores. */
  function Combine(w: Write, row: Row): Row {
    map c | c in COLUMNS :: if Overwrites(w, c) then w.proposed[c] else row[c]
  }

  /** The row `w` leaves under its key. */
  function Landed(table: Table, w: Write): Row {
    if w.key in table then Combine(w, table[w.key]) else w.proposed
  }

  function Apply(table: Table, w: Write): Table {
    table[w.key := Landed(table, w)]
  }

  predicate Accepts(table: Table, w: Write, check: Row -> bool) {
    check(w.proposed) && (w.Fill? || check(Landed(table, w)))
  }

  /** One statement: an error when a constraint fails. */
  function Exec(table: Table, w: Write, check: Row -> bool): Result<Table> {
    if Accepts(table, w, check) then Ok(Apply(table, w)) else Err
  }

  function ApplyAll(table: Table, ws: seq<Write>): Table {
    if ws == [] then table
    else Apply(ApplyAll(table, ws[..|ws| - 1]), ws[|ws| - 1])
  }

  function ExecAll(table: Table, ws: seq<Write>, check: Row -> bool): Result<Table> {
    if ws == [] then Ok(table)
    else
      match ExecAll(table, ws[..|ws| - 1], check)
      case Err => Err
      case Ok(t) => Exec(t, ws[|ws| - 1], check)
  }

  lemma {:induction false} ExecAllApplies(table: Table, ws: seq<Write>, check: Row -> bool)
    requires ExecAll(table, ws, check).Ok?
    ensures ExecAll(table, ws, check).value == ApplyAll(table, ws)
  {
    if ws != [] {
      ExecAllApplies(table, ws[..|ws| - 1], check);
    }
  }

  lemma {:induction false} ExecAllConcat(table: Table, xs: seq<Write>, ys: seq<Write>, check: Row -> bool)
    ensures ExecAll(table, xs + ys, check) ==
            match ExecAll(table, xs, check)
            case Err => Err
            case Ok(t) => ExecAll(t, ys, check)
  {
    if ys == [] {
      assert xs + ys == xs;
    } else {
      var init := ys[..|ys| - 1];
      assert (xs + ys)[..|xs + ys| - 1] == xs + init;
      ExecAllConcat(table, xs, init, check);
    }
  }

  lemma {:induction false} ApplyAllConcat(table: Table, xs: seq<Write>, ys: seq<Write>)
    ensures ApplyAll(table, xs + ys) == ApplyAll(ApplyAll(table, xs), ys)
  {
    if ys == [] {
      assert xs + ys == xs;
    } else {
      var init := ys[..|ys| - 1];
      assert (xs + ys)[..|xs + ys| - 1] == xs + init;
      ApplyAllConcat(table, xs, init);
    }
  }

  /** The value the last write that overwrites column `c` of row `k` gives it. */
  function LastWritten(ws: seq<Write>, k: Key, c: Column): Option<Value> {
    if ws == [] then None
    else
      var w := ws[|ws| - 1];
      if w.key == k && Overwrites(w, c) then Some(w.proposed[c])
      else LastWritten(ws[..|ws| - 1], k, c)
  }

  /** The first row proposed under `k`: what an insert of `k` stores. */
  function FirstProposed(ws: seq<Write>, k: Key): Option<Row> {
    if ws == [] then None
    else
      match FirstProposed(ws[..|ws| - 1], k)
      case Some(r) => Some(r)
      case None => if ws[|ws| - 1].key == k then Some(ws[|ws| - 1].proposed) else None
  }

  lemma Snoc(ws: seq<Write>, w: Write, k: Key)
    ensures forall c :: LastWritten(ws + [w], k, c) ==
                        if w.key == k && Overwrites(w, c) then Some(w.proposed[c]) else LastWritten(ws, k, c)
    ensures FirstProposed(ws + [w], k) ==
            if FirstProposed(ws, k).None? && w.key == k then Some(w.proposed) else FirstProposed(ws, k)
  {
    assert (ws + [w])[..|ws|] == ws;
  }

  /** Where row `k` starts from: the row in the table, or else the first one proposed. */
  function BaseRow(table: Table, ws: seq<Write>, k: Key): Option<Row> {
    if k in table then Some(table[k]) else FirstProposed(ws, k)
  }

  /** Every cell after any list of writes: the last value that overwrote it, or
      else what the row started from. */
  lemma {:induction false} CellAfter(table: Table, ws: seq<Write>, k: Key)
    ensures k in ApplyAll(table, ws) <==> BaseRow(table, ws, k).Some?
    ensures k in ApplyAll(table, ws) ==>
              forall c :: ApplyAll(table, ws)[k][c] ==
                          match LastWritten(ws, k, c)
                          case Some(v) => v
                          case None => BaseRow(table, ws, k).value[c]
  {
    if ws != [] {
      CellAfter(table, ws[..|ws| - 1], k);
      if BaseRow(table, ws[..|ws| - 1], k).None? {
        NothingWritten(ws[..|ws| - 1], k);
      }
    }
  }

  lemma {:induction false} NothingWritten(ws: seq<Write>, k: Key)
    requires FirstProposed(ws, k).None?
    ensures forall c :: LastWritten(ws, k, c).None?
    ensures forall w :: w in ws ==> w.key != k
  {
    if ws != [] {
      NothingWritten(ws[..|ws| - 1], k);
      assert ws == ws[..|ws| - 1] + [ws[|ws| - 1]];
    }
  }

  /** `LastWritten` is the value of some overwriting write, and absent only when there is none. */
  lemma {:induction false} LastWrittenFrom(ws: seq<Write>, k: Key, c: Column)
    ensures LastWritten(ws, k, c).None? ==> forall w :: w in ws && w.key == k ==> !Overwrites(w, c)
    ensures LastWritten(ws, k, c).Some? ==>
              exists w :: w in ws && w.key == k && Overwrites(w, c) && w.proposed[c] == LastWritten(ws, k, c).value
  {
    if ws != [] {
      LastWrittenFrom(ws[..|ws| - 1], k, c);
      assert ws == ws[..|ws| - 1] + [ws[|ws| - 1]];
      assert ws[|ws| - 1] in ws;
    }
  }

  lemma {:induction false} FirstProposedFrom(ws: seq<Write>, k: Key)
    ensures FirstProposed(ws, k).None? <==> forall w :: w in ws ==> w.key != k
    ensures FirstProposed(ws, k).Some? ==> exists w :: w in ws && w.key == k && w.proposed == FirstProposed(ws, k).value
  {
    if ws != [] {
      FirstProposedFrom(ws[..|ws| - 1], k);
      assert ws == ws[..|ws| - 1] + [ws[|ws| - 1]];
      assert ws[|ws| - 1] in ws;
    }
  }

  lemma {:induction false} FirstProposedConcat(xs: seq<Write>, ys: seq<Write>, k: Key)
    ensures FirstProposed(xs + ys, k) ==
            if FirstProposed(xs, k).Some? then FirstProposed(xs, k) else FirstProposed(ys, k)
  {
    if ys == [] {
      assert xs + ys == xs;
    } else {
      var init := ys[..|ys| - 1];
      assert (xs + ys)[..|xs + ys| - 1] == xs + init;
      FirstProposedConcat(xs, init, k);
    }
  }

  /** In an accepted list of writes every proposed row meets the constraints. */
  lemma {:induction false} ProposedRowsPass(table: Table, ws: seq<Write>, check: Row -> bool, w: Write)
    requires ExecAll(table, ws, check).Ok? && w in ws
    ensures check(w.proposed)
  {
    assert ws == ws[..|ws| - 1] + [ws[|ws| - 1]];
    if w != ws[|ws| - 1] {
      ProposedRowsPass(table, ws[..|ws| - 1], check, w);
    }
  }

  /** Any two writes that overwrite one cell write the same value there. */
  ghost predicate ClashFreeAt(ws: seq<Write>, k: Key, c: Column) {
    forall v, w | v in ws && w in ws && v.key == k && w.key == k ::
      Overwrites(v, c) && Overwrites(w, c) ==> v.proposed[c] == w.proposed[c]
  }

  /** Without clashes, what was last written does not depend on the order of the writes. */
  lemma OrderFree(xs: seq<Write>, ys: seq<Write>, k: Key, c: Column)
    requires ClashFreeAt(xs, k, c)
    requires forall w: Write :: !w.Fill? ==> (w in xs <==> w in ys)
    ensures LastWritten(xs, k, c) == LastWritten(ys, k, c)
  {
    LastWrittenFrom(xs, k, c);
    LastWrittenFrom(ys, k, c);
  }

  lemma WrittenBySome(ws: seq<Write>, w: Write, c: Column)
    requires w in ws && Overwrites(w, c)
    ensures LastWritten(ws, w.key, c).Some?
  {
    LastWrittenFrom(ws, w.key, c);
  }

  /** Two orders of the same writes leave the same row `k`, if an inserted row starts out
      alike in the columns that are never written. */
  lemma SameRow(table: Table, xs: seq<Write>, ys: seq<Write>, k: Key)
    requires forall c :: ClashFreeAt(xs, k, c)
    requires forall w: Write :: !w.Fill? ==> (w in xs <==> w in ys)
    requires BaseRow(table, xs, k).Some? <==> BaseRow(table, ys, k).Some?
    requires BaseRow(table, xs, k).Some? ==> forall c ::
               LastWritten(xs, k, c).None? ==> BaseRow(table, xs, k).value[c] == BaseRow(table, ys, k).value[c]
    ensures k in ApplyAll(table, xs) <==> k in ApplyAll(table, ys)
    ensures k in ApplyAll(table, xs) ==> ApplyAll(table, xs)[k] == ApplyAll(table, ys)[k]
  {
    CellAfter(table, xs, k);
    CellAfter(table, ys, k);
    var x, y := ApplyAll(table, xs), ApplyAll(table, ys);
    if k in x {
      forall c ensures x[k][c] == y[k][c] {
        OrderFree(xs, ys, k, c);
      }
      SameCells(x[k], y[k]);
    }
  }

  lemma SameCells(r: Row, s: Row)
    requires forall c :: r[c] == s[c]
    ensures r == s
  {
  }

  /** The row the `i`-th write leaves. */
  function RowAfter(table: Table, ws: seq<Write>, i: nat): Row
    requires i < |ws|
  {
    assert ws[..i + 1][|ws[..i + 1]| - 1] == ws[i];
    ApplyAll(table, ws[..i + 1])[ws[i].key]
  }

  predicate CheckedAt(table: Table, ws: seq<Write>, check: Row -> bool, i: nat)
    requires i < |ws|
  {
    check(ws[i].proposed) && check(RowAfter(table, ws, i))
  }

  lemma CheckedBefore(table: Table, init: seq<Write>, w: Write, check: Row -> bool, i: nat)
    requires i < |init|
    ensures CheckedAt(table, init + [w], check, i) == CheckedAt(table, init, check, i)
  {
    hide ApplyAll;
    assert (init + [w])[..i + 1] == init[..i + 1] && (init + [w])[i] == init[i];
  }

  lemma CheckedLast(table: Table, init: seq<Write>, w: Write, check: Row -> bool)
    ensures CheckedAt(table, init + [w], check, |init|) <==>
            check(w.proposed) && check(Landed(ApplyAll(table, init), w))
  {
    hide Landed;
    var ws := init + [w];
    assert ws[..|init| + 1] == ws && ws[..|ws| - 1] == init;
    assert ApplyAll(table, ws) == Apply(ApplyAll(table, init), w);
  }

  /** A list of upserts is accepted exactly when every proposed row, and every row stored on
      the way, meets the constraints. */
  lemma {:induction false} AcceptedIffChecked(table: Table, ws: seq<Write>, check: Row -> bool)
    requires forall w :: w in ws ==> !w.Fill?
    ensures ExecAll(table, ws, check).Ok? <==> forall i :: 0 <= i < |ws| ==> CheckedAt(table, ws, check, i)
  {
    hide Landed, Apply, CheckedAt, ApplyAll;
    if ws != [] {
      var n := |ws| - 1;
      var init, w := ws[..n], ws[n];
      assert ws == init + [w];
      AcceptedIffChecked(table, init, check);
      forall i | 0 <= i < n ensures CheckedAt(table, ws, check, i) == CheckedAt(table, init, check, i) {
        CheckedBefore(table, init, w, check, i);
      }
      CheckedLast(table, init, w, check);
      if ExecAll(table, init, check).Ok? {
        ExecAllApplies(table, init, check);
      }
    }
  }

  /** Every cell of an inserted row was proposed by some write. */
  lemma CellProposed(table: Table, ws: seq<Write>, k: Key, c: Column) returns (w: Write)
    requires k !in table && k in ApplyAll(table, ws)
    ensures w in ws && w.key == k && ApplyAll(table, ws)[k][c] == w.proposed[c]
    ensures LastWritten(ws, k, c).Some? ==> Overwrites(w, c)
    ensures LastWritten(ws, k, c).None? ==> Some(w.proposed) == FirstProposed(ws, k)
  {
    CellAfter(table, ws, k);
    LastWrittenFrom(ws, k, c);
    FirstProposedFrom(ws, k);
    if LastWritten(ws, k, c).Some? {
      w :| w in ws && w.key == k && Overwrites(w, c) && w.proposed[c] == LastWritten(ws, k, c).value;
    } else {
      w :| w in ws && w.key == k && w.proposed == FirstProposed(ws, k).value;
    }
  }

  /** Row `k` after two writes to it, the first of which inserts it. */
  lemma TwoWrites(table: Table, v: Write, w: Write, k: Key)
    requires v.key == k && w.key == k && k !in table
    ensures k in ApplyAll(table, [v, w])
    ensures forall c :: ApplyAll(table, [v, w])[k][c] == if Overwrites(w, c) then w.proposed[c] else v.proposed[c]
  {
    assert [v, w][..1] == [v];
    assert [v][..0] == [];
    assert ApplyAll(table, [v]) == table[k := v.proposed];
  }
}
