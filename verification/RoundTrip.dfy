/** From the events the SDK emits back to the tree of calls. */
module RoundTrip {
  import opened Tables
  import opened Forest
  import opened Spans

  /** An observation row as `get_trace` selects it. */
  datatype Stored = Stored(id: Id, trace: Id, parent: Option<Id>, start: int)

  /** The observations that the creates among `events` insert, of trace `t` or of all. */
  function StoredOf(events: seq<Event>, t: Option<Id>): seq<Stored> {
    if events == [] then []
    else
      (match events[0]
       case Create(id, trace, parent, start) => if t.None? || t.value == trace then [Stored(id, trace, parent, start)] else []
       case _ => []) +
      StoredOf(events[1..], t)
  }

  lemma {:induction false} StoredConcat(xs: seq<Event>, ys: seq<Event>, t: Option<Id>)
    ensures StoredOf(xs + ys, t) == StoredOf(xs, t) + StoredOf(ys, t)
  {
    if xs == [] {
      assert xs + ys == ys;
    } else {
      assert (xs + ys)[1..] == xs[1..] + ys;
      StoredConcat(xs[1..], ys, t);
    }
  }

  function Links(rows: seq<Stored>): seq<Span> {
    seq(|rows|, i requires 0 <= i < |rows| => Span(rows[i].id, rows[i].parent))
  }

  // --- ORDER BY start_time, id ----------------------------------------------------------

  predicate Before(a: Stored, b: Stored, less: (Id, Id) -> bool) {
    a.start < b.start || (a.start == b.start && less(a.id, b.id))
  }

  predicate IsQuery(q: seq<Stored>, table: seq<Stored>, less: (Id, Id) -> bool) {
    && multiset(q) == multiset(table)
    && forall i, j :: 0 <= i < j < |q| ==> !Before(q[j], q[i], less)
  }

  predicate Rising(rows: seq<Stored>) {
    forall i, j :: 0 <= i < j < |rows| ==> rows[i].start < rows[j].start
  }

  lemma LastComesLast(q: seq<Stored>, table: seq<Stored>, less: (Id, Id) -> bool)
    requires IsQuery(q, table, less) && Rising(table) && table != []
    ensures |q| == |table| && q[|q| - 1] == table[|q| - 1]
  {
    assert |q| == |multiset(q)| == |multiset(table)| == |table|;
    var n := |table| - 1;
    assert table[n] in multiset(q) && q[n] in multiset(table);
    var j :| 0 <= j <= n && q[j] == table[n];
    var i :| 0 <= i <= n && table[i] == q[n];
    assert j < n ==> !Before(q[n], q[j], less);
  }

  lemma ButLast<T>(xs: seq<T>)
    requires xs != []
    ensures multiset(xs[..|xs| - 1]) == multiset(xs) - multiset{xs[|xs| - 1]}
  {
    assert xs == xs[..|xs| - 1] + [xs[|xs| - 1]];
  }

  /** Rows with rising start times come back in that order, wherever the table keeps them. */
  lemma {:induction false} OneOrder(q: seq<Stored>, table: seq<Stored>, less: (Id, Id) -> bool)
    requires IsQuery(q, table, less) && Rising(table)
    ensures q == table
    decreases |table|
  {
    assert |q| == |multiset(q)| == |multiset(table)| == |table|;
    if table != [] {
      var n := |table| - 1;
      LastComesLast(q, table, less);
      ButLast(q);
      ButLast(table);
      OneOrder(q[..n], table[..n], less);
      assert q == q[..n] + [q[n]] && table == table[..n] + [q[n]];
    }
  }

  // --- every call ends once -------------------------------------------------------------

  function Creates(events: seq<Event>): multiset<(Id, Id)> {
    if events == [] then multiset{}
    else (if events[0].Create? then multiset{(events[0].id, events[0].trace)} else multiset{}) + Creates(events[1..])
  }

  function Ends(events: seq<Event>): multiset<(Id, Id)> {
    if events == [] then multiset{}
    else (if events[0].End? then multiset{(events[0].id, events[0].trace)} else multiset{}) + Ends(events[1..])
  }

  lemma {:induction false} BracketsConcat(xs: seq<Event>, ys: seq<Event>)
    ensures Creates(xs + ys) == Creates(xs) + Creates(ys) && Ends(xs + ys) == Ends(xs) + Ends(ys)
  {
    if xs == [] {
      assert xs + ys == ys;
    } else {
      assert (xs + ys)[1..] == xs[1..] + ys;
      BracketsConcat(xs[1..], ys);
    }
  }

  lemma {:induction false} Balanced(log: seq<Node>, cur: Id, parent: Option<Id>)
    ensures Creates(EventsOf(log, cur, parent)) == Ends(EventsOf(log, cur, parent))
  {
    if log != [] {
      var head, tail := log[0], EventsOf(log[1..], cur, parent);
      Balanced(log[1..], cur, parent);
      match head
      case Call(id, start, end, error, kids) =>
        var inner := EventsOf(kids, cur, Some(id));
        var first, last := [Create(id, cur, parent, start)], [End(id, cur, end, error)];
        Balanced(kids, cur, Some(id));
        BracketsConcat(first, inner);
        BracketsConcat(first + inner, last);
        BracketsConcat(first + inner + last, tail);
      case Block(trace, at, kids) =>
        var inner := EventsOf(kids, trace, None);
        Balanced(kids, trace, None);
        BracketsConcat([TraceStart(trace, at)], inner);
        BracketsConcat([TraceStart(trace, at)] + inner, tail);
    }
  }

  // --- ids and times ---------------------------------------------------------------------

  ghost predicate Minted(s: Supply, id: Id, k: nat, k2: nat) {
    exists i: nat :: k <= i < k2 && s.uuid(i) == id
  }

  /** Ids minted between `k` and `k2`, all different; clock readings between `m` and `m2`,
      rising. */
  ghost predicate Stamped(s: Supply, rows: seq<Stored>, k: nat, k2: nat, m: nat, m2: nat) {
    && k <= k2 && m <= m2 && Rising(rows)
    && (forall i :: 0 <= i < |rows| ==> Minted(s, rows[i].id, k, k2) && s.now(m) <= rows[i].start < s.now(m2))
    && (forall i, j :: 0 <= i < j < |rows| ==> rows[i].id != rows[j].id)
  }

  lemma StampedConcat(s: Supply, xs: seq<Stored>, ys: seq<Stored>,
                      k: nat, k1: nat, k2: nat, m: nat, m1: nat, m2: nat)
    requires Sound(s) && Stamped(s, xs, k, k1, m, m1) && Stamped(s, ys, k1, k2, m1, m2)
    ensures Stamped(s, xs + ys, k, k2, m, m2)
  {
    var zs := xs + ys;
    assert s.now(m) <= s.now(m1) <= s.now(m2);
    forall i | 0 <= i < |zs| ensures Minted(s, zs[i].id, k, k2) && s.now(m) <= zs[i].start < s.now(m2) {
      if i < |xs| {
        assert zs[i] == xs[i] && Minted(s, xs[i].id, k, k1);
      } else {
        assert zs[i] == ys[i - |xs|];
        assert Minted(s, ys[i - |xs|].id, k1, k2);
      }
    }
    forall i, j | 0 <= i < j < |zs| ensures zs[i].id != zs[j].id && zs[i].start < zs[j].start {
      if i < |xs| <= j {
        assert zs[j] == ys[j - |xs|];
        assert Minted(s, xs[i].id, k, k1) && Minted(s, ys[j - |xs|].id, k1, k2);
        var a: nat :| k <= a < k1 && s.uuid(a) == xs[i].id;
        var b: nat :| k1 <= b < k2 && s.uuid(b) == ys[j - |xs|].id;
      } else if |xs| <= i {
        assert zs[i] == ys[i - |xs|] && zs[j] == ys[j - |xs|];
      }
    }
  }

  lemma StampedCall(s: Supply, id: Id, trace: Id, parent: Option<Id>, k: nat, m: nat)
    requires Sound(s) && id == s.uuid(k)
    ensures Stamped(s, [Stored(id, trace, parent, s.now(m))], k, k + 1, m, m + 1)
    ensures Stamped(s, [], k, k + 1, m, m + 1) && Stamped(s, [], k, k, m, m + 1)
  {
    assert Minted(s, id, k, k + 1);
  }

  lemma {:induction false} CallStamped(s: Supply, body: seq<Stmt>, k: nat, m: nat, cur: Id, parent: Option<Id>,
                                       t: Option<Id>)
    requires Sound(s)
    ensures var o := CallOf(s, body, k, m);
            Stamped(s, StoredOf(EventsOf(o.log, cur, parent), t), k, o.minted, m, o.ticks)
    decreases body, 1
  {
    hide Meaning, EventsOf, Stamped;
    var o, inner := CallOf(s, body, k, m), Meaning(s, body, true, k + 1, m + 1);
    var id := s.uuid(k);
    OneCall(o.log[0], cur, parent);
    MeaningStamped(s, body, true, k + 1, m + 1, cur, Some(id), t);
    var first, mid, last :=
      [Create(id, cur, parent, s.now(m))], EventsOf(inner.log, cur, Some(id)), [End(id, cur, s.now(inner.ticks), inner.raised)];
    StoredConcat(first, mid, t);
    StoredConcat(first + mid, last, t);
    StampedCall(s, id, cur, parent, k, m);
    StampedConcat(s, StoredOf(first, t), StoredOf(mid, t), k, k + 1, inner.minted, m, m + 1, inner.ticks);
    StampedNone(s, inner.minted, inner.ticks);
    StampedConcat(s, StoredOf(first + mid, t), StoredOf(last, t), k, inner.minted, inner.minted,
                  m, inner.ticks, inner.ticks + 1);
  }

  lemma StampedNone(s: Supply, k: nat, m: nat)
    requires Sound(s)
    ensures Stamped(s, [], k, k, m, m) && Stamped(s, [], k, k + 1, m, m + 1) && Stamped(s, [], k, k, m, m + 1)
  {
  }

  lemma {:induction false} BlockStamped(s: Supply, o: Outcome, tid: Id, k: nat, k1: nat, m: nat, cur: Id,
                                        parent: Option<Id>, t: Option<Id>)
    requires Sound(s) && k <= k1 <= k + 1
    requires |o.log| == 1 && o.log[0] == Block(tid, s.now(m), o.log[0].kids)
    requires Stamped(s, StoredOf(EventsOf(o.log[0].kids, tid, None), t), k1, o.minted, m + 1, o.ticks)
    ensures Stamped(s, StoredOf(EventsOf(o.log, cur, parent), t), k, o.minted, m, o.ticks)
  {
    hide EventsOf, Stamped;
    OneBlock(o.log[0], cur, parent);
    assert o.log == [o.log[0]];
    var inner := EventsOf(o.log[0].kids, tid, None);
    StoredConcat([TraceStart(tid, s.now(m))], inner, t);
    StampedNone(s, k, m);
    StampedConcat(s, [], StoredOf(inner, t), k, k1, o.minted, m, m + 1, o.ticks);
  }

  lemma {:induction false} StmtStamped(s: Supply, st: Stmt, open: bool, k: nat, m: nat, cur: Id, parent: Option<Id>,
                                       t: Option<Id>)
    requires Sound(s)
    ensures var o := StmtOf(s, st, open, k, m);
            Stamped(s, StoredOf(EventsOf(o.log, cur, parent), t), k, o.minted, m, o.ticks)
    decreases st, 0
  {
    hide Meaning, EventsOf, Stamped;
    match st
    case TraceBlock(given, b) =>
      var tid, k1 := if Usable(given) then given.value else s.uuid(k), if Usable(given) then k else k + 1;
      MeaningStamped(s, b, true, k1, m + 1, tid, None, t);
      BlockStamped(s, TraceOf(s, given, b, k, m), tid, k, k1, m, cur, parent, t);
    case SpanBlock(b) => SpanStamped(s, b, open, k, m, cur, parent, t);
    case Observed(b) => SpanStamped(s, b, open, k, m, cur, parent, t);
    case Try(b) => MeaningStamped(s, b, open, k, m, cur, parent, t);
    case Raise =>
      assert EventsOf([], cur, parent) == [] by { MeaningStep(s, [], open, k, m, cur, parent); }
      StampedNone(s, k, m);
  }

  lemma {:induction false} SpanStamped(s: Supply, body: seq<Stmt>, open: bool, k: nat, m: nat, cur: Id,
                                       parent: Option<Id>, t: Option<Id>)
    requires Sound(s)
    ensures var o := SpanOf(s, body, open, k, m);
            Stamped(s, StoredOf(EventsOf(o.log, cur, parent), t), k, o.minted, m, o.ticks)
    decreases body, 2
  {
    hide Meaning, EventsOf, Stamped, CallOf;
    if open {
      CallStamped(s, body, k, m, cur, parent, t);
    } else {
      CallStamped(s, body, k + 1, m + 1, s.uuid(k), None, t);
      BlockStamped(s, SpanOf(s, body, open, k, m), s.uuid(k), k, k + 1, m, cur, parent, t);
    }
  }

  /** Along any run the creates of a trace carry fresh ids and rising start times. */
  lemma {:induction false} MeaningStamped(s: Supply, body: seq<Stmt>, open: bool, k: nat, m: nat, cur: Id,
                                          parent: Option<Id>, t: Option<Id>)
    requires Sound(s)
    ensures var o := Meaning(s, body, open, k, m);
            Stamped(s, StoredOf(EventsOf(o.log, cur, parent), t), k, o.minted, m, o.ticks)
    decreases body, 0
  {
    hide Meaning, EventsOf, Stamped, StmtOf;
    MeaningStep(s, body, open, k, m, cur, parent);
    if body == [] {
      StampedNone(s, k, m);
    } else {
      var first := StmtOf(s, body[0], open, k, m);
      StmtStamped(s, body[0], open, k, m, cur, parent, t);
      if !first.raised {
        var rest := Meaning(s, body[1..], open, first.minted, first.ticks);
        var xs, ys := EventsOf(first.log, cur, parent), EventsOf(rest.log, cur, parent);
        MeaningStamped(s, body[1..], open, first.minted, first.ticks, cur, parent, t);
        StoredConcat(xs, ys, t);
        StampedConcat(s, StoredOf(xs, t), StoredOf(ys, t), k, first.minted, rest.minted, m, first.ticks, rest.ticks);
      }
    }
  }

  // --- the forest of calls ------------------------------------------------------------------

  /** The calls made directly in `log`, each with the calls below it. */
  function CallsIn(log: seq<Node>): seq<Tree> {
    if log == [] then []
    else
      (match log[0]
       case Call(id, _, _, _, kids) => [Tree(id, false, CallsIn(kids))]
       case Block(_, _, _) => []) +
      CallsIn(log[1..])
  }

  /** The outermost calls of trace `t`, in call order, `log` being inside trace `cur`.
      Blocks opened with one trace id share a trace. */
  function RootsIn(t: Id, log: seq<Node>, cur: Id, top: bool): seq<Tree> {
    if log == [] then []
    else
      (match log[0]
       case Call(id, _, _, _, kids) =>
         (if top && cur == t then [Tree(id, false, CallsIn(kids))] else []) + RootsIn(t, kids, cur, false)
       case Block(trace, _, kids) => RootsIn(t, kids, trace, true)) +
      RootsIn(t, log[1..], cur, top)
  }

  function CallForest(t: Id, log: seq<Node>): seq<Tree> {
    RootsIn(t, log, "", true)
  }

  function TreeIds(ts: seq<Tree>): seq<Id> {
    seq(|ts|, i requires 0 <= i < |ts| => ts[i].id)
  }

  lemma IdsConcat(xs: seq<Tree>, ys: seq<Tree>)
    ensures TreeIds(xs + ys) == TreeIds(xs) + TreeIds(ys) && TreeIds([]) == []
    ensures |xs| == 1 ==> TreeIds(xs) == [xs[0].id]
  {
  }

  // --- the rows of a log -----------------------------------------------------------------------

  /** The rows of trace `t` that the creates in `log` insert. */
  function Rows(t: Id, log: seq<Node>, cur: Id, parent: Option<Id>): seq<Span> {
    if log == [] then []
    else
      (match log[0]
       case Call(id, _, _, _, kids) =>
         (if cur == t then [Span(id, parent)] else []) + Rows(t, kids, cur, Some(id))
       case Block(trace, _, kids) => Rows(t, kids, trace, None)) +
      Rows(t, log[1..], cur, parent)
  }

  lemma LinksConcat(xs: seq<Stored>, ys: seq<Stored>)
    ensures Links(xs + ys) == Links(xs) + Links(ys)
  {
  }

  lemma StoredOne(e: Event, t: Id)
    ensures Links(StoredOf([e], Some(t))) == if e.Create? && e.trace == t then [Span(e.id, e.parent)] else []
    ensures Links(StoredOf([], Some(t))) == []
  {
    assert StoredOf([e][1..], Some(t)) == [];
  }

  lemma LinksStoredConcat(xs: seq<Event>, ys: seq<Event>, t: Id)
    ensures Links(StoredOf(xs + ys, Some(t))) == Links(StoredOf(xs, Some(t))) + Links(StoredOf(ys, Some(t)))
  {
    StoredConcat(xs, ys, Some(t));
    LinksConcat(StoredOf(xs, Some(t)), StoredOf(ys, Some(t)));
  }

  lemma {:induction false} RowsAreStored(t: Id, log: seq<Node>, cur: Id, parent: Option<Id>)
    ensures Links(StoredOf(EventsOf(log, cur, parent), Some(t))) == Rows(t, log, cur, parent)
  {
    hide StoredOf, Links;
    StoredOne(TraceStart(t, 0), t);
    if log != [] {
      var tail := EventsOf(log[1..], cur, parent);
      RowsAreStored(t, log[1..], cur, parent);
      match log[0]
      case Call(id, start, end, error, kids) =>
        var inner := EventsOf(kids, cur, Some(id));
        var create, finish := Create(id, cur, parent, start), End(id, cur, end, error);
        RowsAreStored(t, kids, cur, Some(id));
        StoredOne(create, t);
        StoredOne(finish, t);
        LinksStoredConcat([create], inner, t);
        LinksStoredConcat([create] + inner, [finish], t);
        LinksStoredConcat([create] + inner + [finish], tail, t);
      case Block(trace, at, kids) =>
        var inner := EventsOf(kids, trace, None);
        var open := TraceStart(trace, at);
        RowsAreStored(t, kids, trace, None);
        StoredOne(open, t);
        LinksStoredConcat([open], inner, t);
        LinksStoredConcat([open] + inner, tail, t);
    }
  }

  lemma {:induction false} KidsConcat(xs: seq<Span>, ys: seq<Span>, p: Id)
    ensures Kids(xs + ys, p) == Kids(xs, p) + Kids(ys, p)
  {
    if ys == [] {
      assert xs + ys == xs;
    } else {
      assert (xs + ys)[..|xs + ys| - 1] == xs + ys[..|ys| - 1];
      KidsConcat(xs, ys[..|ys| - 1], p);
    }
  }

  lemma {:induction false} TopsConcat(xs: seq<Span>, ys: seq<Span>, present: set<Id>)
    ensures Tops(xs + ys, present) == Tops(xs, present) + Tops(ys, present)
  {
    if ys == [] {
      assert xs + ys == xs;
    } else {
      assert (xs + ys)[..|xs + ys| - 1] == xs + ys[..|ys| - 1];
      TopsConcat(xs, ys[..|ys| - 1], present);
    }
  }

  predicate NoChildIn(rows: seq<Span>, p: Id) {
    forall r :: r in rows ==> r.parent != Some(p)
  }

  lemma {:induction false} ChildlessKids(rows: seq<Span>, p: Id)
    requires NoChildIn(rows, p)
    ensures Kids(rows, p) == []
  {
    if rows != [] {
      assert rows[|rows| - 1] in rows;
      ChildlessKids(rows[..|rows| - 1], p);
    }
  }

  lemma OneRow(r: Span, p: Id, present: set<Id>)
    ensures Kids([r], p) == if r.parent == Some(p) then [r.id] else []
    ensures Tops([r], present) == if r.parent.None? || r.parent.value !in present then [r.id] else []
    ensures Ids([r]) == {r.id}
  {
    assert [r][..0] == [];
  }

  lemma IdsOfConcat(xs: seq<Span>, ys: seq<Span>)
    ensures Ids(xs + ys) == Ids(xs) + Ids(ys)
  {
    forall x | x in Ids(xs) + Ids(ys) ensures x in Ids(xs + ys) {
      if x in Ids(xs) {
        var r :| r in xs && r.id == x;
        assert r in xs + ys;
      } else {
        var r :| r in ys && r.id == x;
        assert r in xs + ys;
      }
    }
  }

  lemma DistinctParts(xs: seq<Span>, ys: seq<Span>)
    requires DistinctIds(xs + ys)
    ensures DistinctIds(xs) && DistinctIds(ys) && Ids(xs) !! Ids(ys)
  {
    var zs := xs + ys;
    forall i, j | 0 <= i < j < |xs| ensures xs[i].id != xs[j].id {
      assert zs[i] == xs[i] && zs[j] == xs[j];
    }
    forall i, j | 0 <= i < j < |ys| ensures ys[i].id != ys[j].id {
      assert zs[|xs| + i] == ys[i] && zs[|xs| + j] == ys[j];
    }
    forall i, j | 0 <= i < |xs| && 0 <= j < |ys| ensures xs[i].id != ys[j].id {
      assert zs[i] == xs[i] && zs[|xs| + j] == ys[j];
    }
  }

  /** `log` starts with a call: what each list starts with. */
  lemma CallFirst(t: Id, log: seq<Node>, cur: Id, parent: Option<Id>)
    requires log != [] && log[0].Call?
    ensures var c := log[0];
            Rows(t, log, cur, parent) ==
            (if cur == t then [Span(c.id, parent)] else []) + Rows(t, c.kids, cur, Some(c.id)) +
            Rows(t, log[1..], cur, parent)
    ensures CallsIn(log) == [Tree(log[0].id, false, CallsIn(log[0].kids))] + CallsIn(log[1..])
    ensures RootsIn(t, log, cur, parent.None?) ==
            (if parent.None? && cur == t then [Tree(log[0].id, false, CallsIn(log[0].kids))] else []) +
            RootsIn(t, log[0].kids, cur, false) + RootsIn(t, log[1..], cur, parent.None?)
  {
  }

  /** `log` starts with a trace block. */
  lemma BlockFirst(t: Id, log: seq<Node>, cur: Id, parent: Option<Id>)
    requires log != [] && log[0].Block?
    ensures Rows(t, log, cur, parent) == Rows(t, log[0].kids, log[0].trace, None) + Rows(t, log[1..], cur, parent)
    ensures CallsIn(log) == CallsIn(log[1..])
    ensures RootsIn(t, log, cur, parent.None?) ==
            RootsIn(t, log[0].kids, log[0].trace, true) + RootsIn(t, log[1..], cur, parent.None?)
  {
  }

  lemma ListsConcat(xs: seq<Span>, ys: seq<Span>, n: Id, present: set<Id>)
    ensures Ids(xs + ys) == Ids(xs) + Ids(ys)
    ensures Kids(xs + ys, n) == Kids(xs, n) + Kids(ys, n)
    ensures Tops(xs + ys, present) == Tops(xs, present) + Tops(ys, present)
  {
    IdsOfConcat(xs, ys);
    KidsConcat(xs, ys, n);
    TopsConcat(xs, ys, present);
  }

  /** Parents started before their children, in the same trace. */
  lemma {:induction false} ParentsInside(t: Id, log: seq<Node>, cur: Id, parent: Option<Id>)
    ensures forall r :: r in Rows(t, log, cur, parent) && r.parent.Some? ==>
              (cur == t && r.parent == parent) || r.parent.value in Ids(Rows(t, log, cur, parent))
  {
    hide Rows, CallsIn, RootsIn, Ids;
    if log == [] {
      NoRows(t, cur, parent);
    } else {
      var tail := Rows(t, log[1..], cur, parent);
      ParentsInside(t, log[1..], cur, parent);
      match log[0]
      case Call(id, start, end, error, kids) =>
        var head := if cur == t then [Span(id, parent)] else [];
        var inner := Rows(t, kids, cur, Some(id));
        ParentsInside(t, kids, cur, Some(id));
        CallFirst(t, log, cur, parent);
        OneRow(Span(id, parent), id, {});
        IdsOfConcat(head, inner);
        IdsOfConcat(head + inner, tail);
      case Block(trace, at, kids) =>
        ParentsInside(t, kids, trace, None);
        BlockFirst(t, log, cur, parent);
        IdsOfConcat(Rows(t, kids, trace, None), tail);
    }
  }

  lemma NoRows(t: Id, cur: Id, parent: Option<Id>)
    ensures Rows(t, [], cur, parent) == [] && CallsIn([]) == [] && RootsIn(t, [], cur, parent.None?) == []
    ensures forall n :: Kids([], n) == []
    ensures forall present :: Tops([], present) == []
    ensures Ids([]) == {}
  {
  }

  /** Below `n`, a caller outside the log, hang the calls made directly in it. */
  lemma {:induction false} DirectKids(t: Id, log: seq<Node>, cur: Id, parent: Option<Id>, n: Id)
    requires n !in Ids(Rows(t, log, cur, parent))
    ensures Kids(Rows(t, log, cur, parent), n) == if cur == t && parent == Some(n) then TreeIds(CallsIn(log)) else []
  {
    hide Rows, CallsIn, RootsIn, Ids, Kids, Tops, TreeIds;
    IdsConcat([], []);
    NoRows(t, cur, parent);
    if log != [] {
      var tail := Rows(t, log[1..], cur, parent);
      match log[0]
      case Call(id, start, end, error, kids) =>
        var head := if cur == t then [Span(id, parent)] else [];
        var inner := Rows(t, kids, cur, Some(id));
        CallFirst(t, log, cur, parent);
        OneRow(Span(id, parent), n, {});
        ListsConcat(head, inner, n, {});
        ListsConcat(head + inner, tail, n, {});
        DirectKids(t, kids, cur, Some(id), n);
        IdsConcat([Tree(id, false, CallsIn(kids))], []);
        IdsConcat([Tree(id, false, CallsIn(kids))], CallsIn(log[1..]));
        DirectKids(t, log[1..], cur, parent, n);
        assert Kids(head, n) == if cur == t && parent == Some(n) then [id] else [];
        assert Kids(inner, n) == [];
      case Block(trace, at, kids) =>
        BlockFirst(t, log, cur, parent);
        ListsConcat(Rows(t, kids, trace, None), tail, n, {});
        DirectKids(t, kids, trace, None, n);
        DirectKids(t, log[1..], cur, parent, n);
    }
  }

  /** At the top stand the outermost calls. */
  lemma {:induction false} OutermostTops(t: Id, log: seq<Node>, cur: Id, parent: Option<Id>, present: set<Id>)
    requires Ids(Rows(t, log, cur, parent)) <= present && (cur == t && parent.Some? ==> parent.value in present)
    ensures Tops(Rows(t, log, cur, parent), present) == TreeIds(RootsIn(t, log, cur, parent.None?))
  {
    hide Rows, CallsIn, RootsIn, Ids, Kids, Tops;
    IdsConcat([], []);
    if log == [] {
      NoRows(t, cur, parent);
    } else {
      var tail := Rows(t, log[1..], cur, parent);
      match log[0]
      case Call(id, start, end, error, kids) =>
        var head := if cur == t then [Span(id, parent)] else [];
        var inner := Rows(t, kids, cur, Some(id));
        CallFirst(t, log, cur, parent);
        OneRow(Span(id, parent), id, present);
        NoRows(t, cur, parent);
        ListsConcat(head, inner, id, present);
        ListsConcat(head + inner, tail, id, present);
        OutermostTops(t, kids, cur, Some(id), present);
        var roots := if parent.None? && cur == t then [Tree(id, false, CallsIn(kids))] else [];
        IdsConcat(roots, RootsIn(t, kids, cur, false));
        IdsConcat(roots + RootsIn(t, kids, cur, false), RootsIn(t, log[1..], cur, parent.None?));
        OutermostTops(t, log[1..], cur, parent, present);
        assert Tops(head, present) == TreeIds(roots);
      case Block(trace, at, kids) =>
        BlockFirst(t, log, cur, parent);
        ListsConcat(Rows(t, kids, trace, None), tail, "", present);
        OutermostTops(t, kids, trace, None, present);
        IdsConcat(RootsIn(t, kids, trace, true), RootsIn(t, log[1..], cur, parent.None?));
        OutermostTops(t, log[1..], cur, parent, present);
    }
  }

  // --- the assembled trees are the calls ------------------------------------------------------

  /** Throughout `tree` the rows hang each call's children below it, in call order. */
  predicate Faithful(rows: seq<Span>, tree: Tree) {
    && Kids(rows, tree.id) == TreeIds(tree.children)
    && !tree.missing
    && forall c :: c in tree.children ==> Faithful(rows, c)
  }

  predicate AllFaithful(rows: seq<Span>, ts: seq<Tree>) {
    forall c :: c in ts ==> Faithful(rows, c)
  }

  /** The children of every call in `part` are all in `part`. */
  ghost predicate Owns(rows: seq<Span>, part: seq<Span>) {
    forall n :: n in Ids(part) ==> Kids(rows, n) == Kids(part, n)
  }

  lemma OwnsPart(rows: seq<Span>, xs: seq<Span>, ys: seq<Span>, zs: seq<Span>)
    requires Owns(rows, xs + ys + zs)
    requires forall n :: n in Ids(ys) ==> Kids(xs, n) == [] && Kids(zs, n) == []
    ensures Owns(rows, ys)
  {
    forall n | n in Ids(ys) ensures Kids(rows, n) == Kids(ys, n) {
      ListsConcat(xs, ys, n, {});
      ListsConcat(xs + ys, zs, n, {});
    }
  }

  lemma FaithfulConcat(rows: seq<Span>, xs: seq<Tree>, ys: seq<Tree>)
    requires AllFaithful(rows, xs) && AllFaithful(rows, ys)
    ensures AllFaithful(rows, xs + ys)
  {
  }

  lemma FaithfulCall(rows: seq<Span>, id: Id, kids: seq<Tree>)
    requires Kids(rows, id) == TreeIds(kids) && AllFaithful(rows, kids)
    ensures AllFaithful(rows, [Tree(id, false, kids)])
  {
  }

  /** The call that `log` starts with, all of `log` being in trace `t`. */
  lemma FirstCallParts(rows: seq<Span>, t: Id, log: seq<Node>, parent: Option<Id>)
    requires log != [] && log[0].Call?
    requires DistinctIds(Rows(t, log, t, parent)) && Owns(rows, Rows(t, log, t, parent))
    requires parent.Some? ==> parent.value !in Ids(Rows(t, log, t, parent))
    ensures var inner, tail := Rows(t, log[0].kids, t, Some(log[0].id)), Rows(t, log[1..], t, parent);
            && DistinctIds(inner) && DistinctIds(tail) && Owns(rows, inner) && Owns(rows, tail)
            && log[0].id !in Ids(inner) && (parent.Some? ==> parent.value !in Ids(tail))
    ensures Kids(rows, log[0].id) == TreeIds(CallsIn(log[0].kids))
  {
    hide Rows, CallsIn, RootsIn, Ids, Kids, Tops, DistinctIds;
    var id := log[0].id;
    var head := [Span(id, parent)];
    var inner, tail := Rows(t, log[0].kids, t, Some(id)), Rows(t, log[1..], t, parent);
    CallFirst(t, log, t, parent);
    DistinctParts(head + inner, tail);
    DistinctParts(head, inner);
    OneRow(head[0], id, {});
    ListsConcat(head, inner, id, {});
    ListsConcat(head + inner, tail, id, {});
    DirectKids(t, log[0].kids, t, Some(id), id);
    DirectKids(t, log[1..], t, parent, id);
    forall n | n in Ids(inner) ensures Kids(head, n) == [] && Kids(tail, n) == [] {
      OneRow(head[0], n, {});
      DirectKids(t, log[1..], t, parent, n);
    }
    OwnsPart(rows, head, inner, tail);
    forall n | n in Ids(tail) ensures Kids(head + inner, n) == [] && Kids([], n) == [] {
      OneRow(head[0], n, {});
      DirectKids(t, log[0].kids, t, Some(id), n);
      ListsConcat(head, inner, n, {});
      NoRows(t, t, parent);
    }
    assert head + inner + tail == head + inner + tail + [];
    OwnsPart(rows, head + inner, tail, []);
  }

  /** Two parts of which neither hangs below the other. */
  lemma SeparateParts(rows: seq<Span>, t: Id, xs: seq<Node>, cur: Id, up: Option<Id>, ys: seq<Node>, cur': Id,
                      up': Option<Id>)
    requires var x, y := Rows(t, xs, cur, up), Rows(t, ys, cur', up');
             && DistinctIds(x + y) && Owns(rows, x + y)
             && (cur == t && up.Some? ==> up.value !in Ids(x + y))
             && (cur' == t && up'.Some? ==> up'.value !in Ids(x + y))
    ensures var x, y := Rows(t, xs, cur, up), Rows(t, ys, cur', up');
            && DistinctIds(x) && DistinctIds(y) && Owns(rows, x) && Owns(rows, y)
            && (cur == t && up.Some? ==> up.value !in Ids(x))
            && (cur' == t && up'.Some? ==> up'.value !in Ids(y))
  {
    hide Rows, CallsIn, RootsIn, Ids, Kids, Tops, DistinctIds;
    var x, y := Rows(t, xs, cur, up), Rows(t, ys, cur', up');
    DistinctParts(x, y);
    IdsOfConcat(x, y);
    NoRows(t, cur, up);
    forall n | n in Ids(x) ensures Kids(y, n) == [] { DirectKids(t, ys, cur', up', n); }
    forall n | n in Ids(y) ensures Kids(x, n) == [] { DirectKids(t, xs, cur, up, n); }
    assert x + y == [] + x + y && x + y == x + y + [];
    OwnsPart(rows, [], x, y);
    OwnsPart(rows, x, y, []);
  }

  lemma {:induction false} CallsFaithful(rows: seq<Span>, t: Id, log: seq<Node>, cur: Id, parent: Option<Id>)
    requires DistinctIds(Rows(t, log, cur, parent)) && Owns(rows, Rows(t, log, cur, parent))
    requires cur == t && parent.Some? ==> parent.value !in Ids(Rows(t, log, cur, parent))
    ensures AllFaithful(rows, RootsIn(t, log, cur, parent.None?))
    ensures cur == t ==> AllFaithful(rows, CallsIn(log))
  {
    hide Rows, CallsIn, RootsIn, Ids, Kids, Tops, DistinctIds, AllFaithful, Owns;
    if log == [] {
      NoRows(t, cur, parent);
      assert AllFaithful(rows, []) by { NoneUnfaithful(rows); }
    } else {
      var head, tail := log[0], log[1..];
      if head.Block? {
        BlockFirst(t, log, cur, parent);
        SeparateParts(rows, t, head.kids, head.trace, None, tail, cur, parent);
        CallsFaithful(rows, t, head.kids, head.trace, None);
        CallsFaithful(rows, t, tail, cur, parent);
        FaithfulConcat(rows, RootsIn(t, head.kids, head.trace, true), RootsIn(t, tail, cur, parent.None?));
      } else {
        CallFirst(t, log, cur, parent);
        var call := [Tree(head.id, false, CallsIn(head.kids))];
        var roots := if parent.None? && cur == t then call else [];
        if cur == t {
          FirstCallParts(rows, t, log, parent);
          CallsFaithful(rows, t, head.kids, cur, Some(head.id));
          CallsFaithful(rows, t, tail, cur, parent);
          FaithfulCall(rows, head.id, CallsIn(head.kids));
          FaithfulConcat(rows, call, CallsIn(tail));
        } else {
          assert Rows(t, log, cur, parent) == Rows(t, head.kids, cur, Some(head.id)) + Rows(t, tail, cur, parent);
          SeparateParts(rows, t, head.kids, cur, Some(head.id), tail, cur, parent);
          CallsFaithful(rows, t, head.kids, cur, Some(head.id));
          CallsFaithful(rows, t, tail, cur, parent);
        }
        NoneUnfaithful(rows);
        FaithfulConcat(rows, roots, RootsIn(t, head.kids, cur, false));
        FaithfulConcat(rows, roots + RootsIn(t, head.kids, cur, false), RootsIn(t, tail, cur, parent.None?));
      }
    }
  }

  lemma NoneUnfaithful(rows: seq<Span>)
    ensures AllFaithful(rows, [])
  {
  }

  /** The node assembled for a faithful call is that call. */
  lemma {:induction false} TreeIsCall(rows: seq<Span>, tree: Tree, d: nat)
    requires DistinctIds(rows) && AtDepth(rows, tree.id, d) && Faithful(rows, tree)
    requires forall x :: !Missing(rows, x)
    ensures TreeAt(rows, tree.id, d) == tree
    decreases tree
  {
    hide Missing, AtDepth, Kids;
    DepthBound(rows, tree.id, d);
    KidsDepth(rows, tree.id, d);
    TreesAreCalls(rows, tree.children, d + 1);
  }

  lemma {:induction false} TreesAreCalls(rows: seq<Span>, ts: seq<Tree>, d: nat)
    requires DistinctIds(rows) && d <= |rows| && AllFaithful(rows, ts) && forall x :: !Missing(rows, x)
    requires forall x :: x in TreeIds(ts) ==> AtDepth(rows, x, d)
    ensures TreesAt(rows, TreeIds(ts), d) == ts
    decreases ts
  {
    hide Missing, AtDepth, Kids, Faithful;
    TreesCount(rows, TreeIds(ts), d);
    forall i | 0 <= i < |ts| ensures TreesAt(rows, TreeIds(ts), d)[i] == ts[i] {
      assert TreeIds(ts)[i] == ts[i].id && ts[i].id in TreeIds(ts);
      TreeIsCall(rows, ts[i], d);
    }
  }

  lemma NothingMissing(t: Id, log: seq<Node>)
    requires DistinctIds(Rows(t, log, "", None))
    ensures forall x :: !Missing(Rows(t, log, "", None), x)
  {
    var rows := Rows(t, log, "", None);
    ParentsInside(t, log, "", None);
    forall x ensures !Missing(rows, x) {
      LinkFromRow(rows, x);
    }
  }

  lemma {:induction false} LinkFromRow(rows: seq<Span>, x: Id)
    ensures ParentLink(rows, x).Some? ==> exists r :: r in rows && r.parent == ParentLink(rows, x)
  {
    if rows != [] {
      LinkFromRow(rows[..|rows| - 1], x);
      assert rows[|rows| - 1] in rows;
    }
  }

  /** For every instrumented program, raising or not, `get_trace` returns each trace's forest
      of calls, in call order, whatever order the table keeps the rows in. */
  lemma CallTreeRoundTrip(s: Supply, program: seq<Stmt>, k: nat, m: nat, t: Id, q: seq<Stored>, less: (Id, Id) -> bool)
    requires Sound(s)
    requires IsQuery(q, StoredOf(EventsOf(Meaning(s, program, false, k, m).log, "", None), Some(t)), less)
    ensures DistinctIds(Links(q)) && ForestOf(Links(q)) == CallForest(t, Meaning(s, program, false, k, m).log)
  {
    hide Rows, CallsIn, RootsIn, Kids, Tops, Meaning, EventsOf, StoredOf;
    var log := Meaning(s, program, false, k, m).log;
    var stored := StoredOf(EventsOf(log, "", None), Some(t));
    MeaningStamped(s, program, false, k, m, "", None, Some(t));
    OneOrder(q, stored, less);
    RowsAreStored(t, log, "", None);
    ForestIsCalls(t, log);
  }

  lemma ForestIsCalls(t: Id, log: seq<Node>)
    requires DistinctIds(Rows(t, log, "", None))
    ensures ForestOf(Rows(t, log, "", None)) == CallForest(t, log)
  {
    hide Rows, CallsIn, RootsIn, Kids, Tops, Missing, Faithful;
    var rows := Rows(t, log, "", None);
    CallsFaithful(rows, t, log, "", None);
    OutermostTops(t, log, "", None, Ids(rows));
    NothingMissing(t, log);
    RootsDepth(rows);
    TreesAreCalls(rows, CallForest(t, log), 0);
  }

  /** For every instrumented program each call has exactly one create and exactly one end
      event, in the same trace, and no other event of either kind carries its id. */
  lemma EveryCallEndsOnce(s: Supply, program: seq<Stmt>, k: nat, m: nat, e: Event, t: Id)
    requires Sound(s) && e in EventsOf(Meaning(s, program, false, k, m).log, "", None) && e.Create?
    ensures var events := EventsOf(Meaning(s, program, false, k, m).log, "", None);
            var once := if t == e.trace then 1 else 0;
            Creates(events)[(e.id, t)] == once && Ends(events)[(e.id, t)] == once
  {
    hide Meaning, EventsOf;
    var log := Meaning(s, program, false, k, m).log;
    var events := EventsOf(log, "", None);
    Balanced(log, "", None);
    MeaningStamped(s, program, false, k, m, "", None, Some(t));
    MeaningStamped(s, program, false, k, m, "", None, None);
    CountCreates(events, e.id, t);
    CountDistinct(StoredOf(events, Some(t)), e.id);
    InStored(events, e, None);
    InStored(events, e, Some(t));
    forall r | r in StoredOf(events, Some(t)) && r.id == e.id ensures r.trace == e.trace == t {
      StoredFrom(events, r, Some(t));
      InStored(events, Create(r.id, r.trace, r.parent, r.start), None);
    }
    if t == e.trace {
      var own := Stored(e.id, t, e.parent, e.start);
      assert own in StoredOf(events, Some(t)) && own.id == e.id;
    }
    assert Creates(events)[(e.id, t)] == CountId(StoredOf(events, Some(t)), e.id);
  }

  function CountId(rows: seq<Stored>, id: Id): nat {
    if rows == [] then 0 else (if rows[0].id == id then 1 else 0) + CountId(rows[1..], id)
  }

  lemma {:induction false} CountCreates(events: seq<Event>, id: Id, t: Id)
    ensures Creates(events)[(id, t)] == CountId(StoredOf(events, Some(t)), id)
  {
    if events != [] {
      CountCreates(events[1..], id, t);
      if events[0].Create? && events[0].trace == t {
        assert StoredOf(events, Some(t))[1..] == StoredOf(events[1..], Some(t));
      } else {
        assert StoredOf(events, Some(t)) == StoredOf(events[1..], Some(t));
      }
    }
  }

  lemma {:induction false} InStored(events: seq<Event>, e: Event, t: Option<Id>)
    requires e in events && e.Create?
    ensures t.None? || t.value == e.trace ==> Stored(e.id, e.trace, e.parent, e.start) in StoredOf(events, t)
  {
    if e != events[0] {
      InStored(events[1..], e, t);
    }
  }

  lemma {:induction false} StoredFrom(events: seq<Event>, r: Stored, t: Option<Id>)
    requires r in StoredOf(events, t)
    ensures Create(r.id, r.trace, r.parent, r.start) in events && (t.Some? ==> r.trace == t.value)
  {
    if r in StoredOf(events[1..], t) {
      StoredFrom(events[1..], r, t);
    }
  }

  lemma {:induction false} CountDistinct(rows: seq<Stored>, id: Id)
    requires forall i, j :: 0 <= i < j < |rows| ==> rows[i].id != rows[j].id
    ensures CountId(rows, id) == if exists r :: r in rows && r.id == id then 1 else 0
  {
    if rows != [] {
      var head, tail := rows[0], rows[1..];
      assert forall i :: 0 <= i < |tail| ==> tail[i] == rows[i + 1];
      CountDistinct(tail, id);
      assert rows == [head] + tail;
      assert head in rows && forall r :: r in rows ==> r == head || r in tail;
    }
  }

  // --- lost events ----------------------------------------------------------------------------

  /** The rows left when the creates of the spans in `lost` never arrive. */
  function Survivors(rows: seq<Span>, lost: set<Id>): seq<Span> {
    if rows == [] then []
    else
      var last := rows[|rows| - 1];
      Survivors(rows[..|rows| - 1], lost) + if last.id in lost then [] else [last]
  }

  function Without(xs: seq<Id>, lost: set<Id>): seq<Id> {
    if xs == [] then []
    else
      var last := xs[|xs| - 1];
      Without(xs[..|xs| - 1], lost) + if last in lost then [] else [last]
  }

  lemma {:induction false} InSurvivors(rows: seq<Span>, lost: set<Id>, r: Span)
    ensures r in Survivors(rows, lost) <==> r in rows && r.id !in lost
  {
    if rows != [] {
      InSurvivors(rows[..|rows| - 1], lost, r);
      assert rows == rows[..|rows| - 1] + [rows[|rows| - 1]];
    }
  }

  lemma {:induction false} SurvivorsDistinct(rows: seq<Span>, lost: set<Id>)
    requires DistinctIds(rows)
    ensures DistinctIds(Survivors(rows, lost))
  {
    if rows != [] {
      var init, last := rows[..|rows| - 1], rows[|rows| - 1];
      SurvivorsDistinct(init, lost);
      forall r | r in Survivors(init, lost) ensures r.id != last.id {
        InSurvivors(init, lost, r);
      }
    }
  }

  lemma {:induction false} SurvivingLink(rows: seq<Span>, lost: set<Id>, x: Id)
    ensures ParentLink(Survivors(rows, lost), x) == if x in lost then None else ParentLink(rows, x)
  {
    if rows != [] {
      var init, last := rows[..|rows| - 1], rows[|rows| - 1];
      SurvivingLink(init, lost, x);
      assert Survivors(init, lost) + [] == Survivors(init, lost);
      assert (Survivors(init, lost) + [last])[..|Survivors(init, lost)|] == Survivors(init, lost);
    }
  }

  lemma {:induction false} SurvivingKids(rows: seq<Span>, lost: set<Id>, p: Id)
    ensures Kids(Survivors(rows, lost), p) == Without(Kids(rows, p), lost)
  {
    if rows != [] {
      var init, last := rows[..|rows| - 1], rows[|rows| - 1];
      SurvivingKids(init, lost, p);
      var before := Kids(init, p);
      assert (before + [last.id])[..|before|] == before;
      assert before + [] == before && Survivors(init, lost) + [] == Survivors(init, lost);
      assert (Survivors(init, lost) + [last])[..|Survivors(init, lost)|] == Survivors(init, lost);
    }
  }

  lemma SurvivingParent(rows: seq<Span>, lost: set<Id>, x: Id)
    requires ParentIn(Survivors(rows, lost), x).Some?
    ensures ParentIn(rows, x) == ParentIn(Survivors(rows, lost), x)
  {
    var p := ParentIn(Survivors(rows, lost), x).value;
    SurvivingLink(rows, lost, x);
    var r :| r in Survivors(rows, lost) && r.id == p;
    InSurvivors(rows, lost, r);
  }

  lemma {:induction false} CycleRemains(rows: seq<Span>, lost: set<Id>, a: Id, x: Id, n: nat)
    requires Above(Survivors(rows, lost), a, x, n)
    ensures Above(rows, a, x, n)
    decreases n
  {
    hide ParentIn, Survivors;
    if n > 0 {
      SurvivingParent(rows, lost, x);
      CycleRemains(rows, lost, a, ParentIn(rows, x).value, n - 1);
    }
  }

  lemma SurvivingIds(rows: seq<Span>, lost: set<Id>)
    ensures Ids(Survivors(rows, lost)) == Ids(rows) - lost
  {
    forall r ensures r in Survivors(rows, lost) <==> r in rows && r.id !in lost { InSurvivors(rows, lost, r); }
  }

  /** When spans have no row at all, neither event of theirs having arrived, a surviving span
      keeps its parent if that survives, and its place among the siblings; otherwise it is a
      root flagged `parent_missing`. The walk still visits every survivor once. A span of which
      only the create is lost does have a row: `Delivery.LossShown`. */
  lemma LossKeepsParents(rows: seq<Span>, lost: set<Id>)
    requires DistinctIds(rows) && !HasCycle(rows) && forall x :: !Missing(rows, x)
    ensures var left := Survivors(rows, lost);
            && DistinctIds(left) && Ids(left) == Ids(rows) - lost
            && (forall x :: x in Ids(left) ==>
                  var p := ParentIn(rows, x);
                  var cut := p.Some? && p.value in lost;
                  ParentIn(left, x) == (if cut then None else p) && (Missing(left, x) <==> cut))
            && (forall p :: Kids(left, p) == Without(Kids(rows, p), lost))
            && Distinct(WalkAll(ForestOf(left)))
            && (forall x :: x in WalkAll(ForestOf(left)) <==> x in Ids(left))
  {
    var left := Survivors(rows, lost);
    SurvivorsDistinct(rows, lost);
    SurvivingIds(rows, lost);
    forall x | x in Ids(left)
      ensures var p := ParentIn(rows, x);
              var cut := p.Some? && p.value in lost;
              ParentIn(left, x) == (if cut then None else p) && (Missing(left, x) <==> cut)
    {
      assert !Missing(rows, x);
      SurvivingLink(rows, lost, x);
    }
    forall p ensures Kids(left, p) == Without(Kids(rows, p), lost) { SurvivingKids(rows, lost, p); }
    if HasCycle(left) {
      var x, n: nat :| x in Ids(left) && n > 0 && Above(left, x, x, n);
      CycleRemains(rows, lost, x, x, n);
    }
    WalkFromRoots(left);
    WalkCompleteIffAcyclic(left);
  }

  /** Every call hangs from an outermost one. */
  lemma {:induction false} AllRooted(rows: seq<Span>, t: Id, log: seq<Node>, cur: Id, parent: Option<Id>)
    requires DistinctIds(rows) && forall x :: !Missing(rows, x)
    requires forall r :: r in Rows(t, log, cur, parent) ==> r in rows
    requires cur == t && parent.Some? ==> Rooted(rows, parent.value)
    ensures forall x :: x in Ids(Rows(t, log, cur, parent)) ==> Rooted(rows, x)
  {
    hide Missing, Rooted, Ids, Rows, ParentLink, CallsIn, RootsIn, DistinctIds;
    if log == [] {
      NoRows(t, cur, parent);
    } else {
      var tail := Rows(t, log[1..], cur, parent);
      match log[0]
      case Call(id, start, end, error, kids) =>
        var head := if cur == t then [Span(id, parent)] else [];
        var inner := Rows(t, kids, cur, Some(id));
        CallFirst(t, log, cur, parent);
        AllRooted(rows, t, log[1..], cur, parent);
        if cur == t {
          assert head[0] in Rows(t, log, cur, parent);
          RootedRow(rows, head[0]);
        }
        AllRooted(rows, t, kids, cur, Some(id));
        OneRow(Span(id, parent), id, {});
        NoRows(t, cur, parent);
        IdsOfConcat(head, inner);
        IdsOfConcat(head + inner, tail);
      case Block(trace, at, kids) =>
        BlockFirst(t, log, cur, parent);
        AllRooted(rows, t, log[1..], cur, parent);
        AllRooted(rows, t, kids, trace, None);
        IdsOfConcat(Rows(t, kids, trace, None), tail);
    }
  }

  lemma RootedRow(rows: seq<Span>, r: Span)
    requires DistinctIds(rows) && r in rows && !Missing(rows, r.id)
    requires r.parent.Some? ==> Rooted(rows, r.parent.value)
    ensures Rooted(rows, r.id)
  {
    hide Rooted;
    LinkOfRow(rows, r);
    RootedUp(rows, r.id);
  }

  /** What the SDK emits meets the conditions of `LossKeepsParents`. */
  lemma CallsAcyclic(s: Supply, program: seq<Stmt>, k: nat, m: nat, t: Id)
    requires Sound(s)
    ensures var rows := Links(StoredOf(EventsOf(Meaning(s, program, false, k, m).log, "", None), Some(t)));
            DistinctIds(rows) && !HasCycle(rows) && forall x :: !Missing(rows, x)
  {
    hide Rows, Meaning, EventsOf, StoredOf, Missing, Rooted, HasCycle;
    var log := Meaning(s, program, false, k, m).log;
    var rows := Rows(t, log, "", None);
    MeaningStamped(s, program, false, k, m, "", None, Some(t));
    RowsAreStored(t, log, "", None);
    NothingMissing(t, log);
    AllRooted(rows, t, log, "", None);
    WalkFromRoots(rows);
    WalkCompleteIffAcyclic(rows);
  }
}
