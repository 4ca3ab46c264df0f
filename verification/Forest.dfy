/** The tree `get_trace` assembles from the flat rows of one trace, and the walk over it. */
module Forest {
  import opened Tables

  type Id = string

  /** What matters of an observation row here; rows come ordered by (start_time, id). */
  datatype Span = Span(id: Id, parent: Option<Id>)

  datatype Tree = Tree(id: Id, missing: bool, children: seq<Tree>)

  function Ids(rows: seq<Span>): set<Id> {
    set r | r in rows :: r.id
  }

  /** The primary key. */
  predicate DistinctIds(rows: seq<Span>) {
    forall i, j :: 0 <= i < j < |rows| ==> rows[i].id != rows[j].id
  }

  predicate Distinct(xs: seq<Id>) {
    forall i, j :: 0 <= i < j < |xs| ==> xs[i] != xs[j]
  }

  // --- parent links ------------------------------------------------------------------

  /** The parent of `x` among the rows: none for a root or when the parent is absent. */
  function ParentIn(rows: seq<Span>, x: Id): Option<Id> {
    match ParentLink(rows, x)
    case Some(p) => if p in Ids(rows) then Some(p) else None
    case None => None
  }

  /** The parent id row `x` carries. */
  function ParentLink(rows: seq<Span>, x: Id): Option<Id> {
    if rows == [] then None
    else if rows[|rows| - 1].id == x then rows[|rows| - 1].parent
    else ParentLink(rows[..|rows| - 1], x)
  }

  /** `parent_missing` */
  predicate Missing(rows: seq<Span>, x: Id) {
    ParentLink(rows, x).Some? && ParentLink(rows, x).value !in Ids(rows)
  }

  lemma {:induction false} LinkOfRow(rows: seq<Span>, r: Span)
    requires DistinctIds(rows) && r in rows
    ensures ParentLink(rows, r.id) == r.parent
  {
    var last := rows[|rows| - 1];
    assert rows == rows[..|rows| - 1] + [last];
    if r != last {
      var i :| 0 <= i < |rows| && rows[i] == r;
      assert r in rows[..|rows| - 1];
      LinkOfRow(rows[..|rows| - 1], r);
    }
  }

  // --- the lists the loop fills -----------------------------------------------------------

  /** The children of `p`, in row order. */
  function Kids(rows: seq<Span>, p: Id): seq<Id> {
    if rows == [] then []
    else
      var last := rows[|rows| - 1];
      Kids(rows[..|rows| - 1], p) + if last.parent == Some(p) then [last.id] else []
  }

  /** The rows among `rows` whose parent is not in `present`, in row order. */
  function Tops(rows: seq<Span>, present: set<Id>): seq<Id> {
    if rows == [] then []
    else
      var last := rows[|rows| - 1];
      Tops(rows[..|rows| - 1], present) +
      if last.parent.None? || last.parent.value !in present then [last.id] else []
  }

  function Roots(rows: seq<Span>): seq<Id> {
    Tops(rows, Ids(rows))
  }

  lemma {:induction false} InKids(rows: seq<Span>, p: Id, x: Id)
    ensures x in Kids(rows, p) <==> exists r :: r in rows && r.id == x && r.parent == Some(p)
  {
    if rows != [] {
      InKids(rows[..|rows| - 1], p, x);
      assert rows == rows[..|rows| - 1] + [rows[|rows| - 1]];
    }
  }

  lemma {:induction false} InTops(rows: seq<Span>, present: set<Id>, x: Id)
    ensures x in Tops(rows, present) <==>
            exists r :: r in rows && r.id == x && (r.parent.None? || r.parent.value !in present)
  {
    if rows != [] {
      InTops(rows[..|rows| - 1], present, x);
      assert rows == rows[..|rows| - 1] + [rows[|rows| - 1]];
    }
  }

  lemma {:induction false} ListsDistinct(rows: seq<Span>, present: set<Id>, p: Id)
    requires DistinctIds(rows)
    ensures Distinct(Kids(rows, p)) && Distinct(Tops(rows, present))
  {
    if rows != [] {
      var init, last := rows[..|rows| - 1], rows[|rows| - 1];
      ListsDistinct(init, present, p);
      InKids(init, p, last.id);
      InTops(init, present, last.id);
      assert forall r :: r in init ==> r.id != last.id;
    }
  }

  /** For arbitrary parent links, cycles and self-parents included: every span is placed
      exactly once, under its parent if that is present and else at the top. */
  lemma PlacedOnce(rows: seq<Span>, x: Id)
    requires DistinctIds(rows) && x in Ids(rows)
    ensures x in Roots(rows) <==> ParentIn(rows, x).None?
    ensures forall p :: p in Ids(rows) ==> (x in Kids(rows, p) <==> ParentIn(rows, x) == Some(p))
    ensures Distinct(Roots(rows)) && forall p :: Distinct(Kids(rows, p))
  {
    var r :| r in rows && r.id == x;
    LinkOfRow(rows, r);
    InTops(rows, Ids(rows), x);
    forall s | s in rows && s.id == x ensures s == r { LinkOfRow(rows, s); }
    forall p ensures Distinct(Kids(rows, p)) { ListsDistinct(rows, Ids(rows), p); }
    ListsDistinct(rows, Ids(rows), x);
    forall p | p in Ids(rows) ensures x in Kids(rows, p) <==> ParentIn(rows, x) == Some(p) {
      InKids(rows, p, x);
    }
  }

  /** The first loop: a node without children for each row. */
  method Nodes(rows: seq<Span>) returns (children: map<Id, seq<Id>>)
    ensures children == map x | x in Ids(rows) :: []
  {
    children := map[];
    for i := 0 to |rows|
      invariant children == map x | x in Ids(rows[..i]) :: []
    {
      assert rows[..i + 1] == rows[..i] + [rows[i]];
      children := children[rows[i].id := []];
    }
    assert rows[..|rows|] == rows;
  }

  function Orphans(rows: seq<Span>, present: set<Id>): set<Id> {
    set r | r in rows && r.parent.Some? && r.parent.value !in present :: r.id
  }

  lemma OrphansAreMissing(rows: seq<Span>)
    requires DistinctIds(rows)
    ensures Orphans(rows, Ids(rows)) == set x | x in Ids(rows) && Missing(rows, x)
  {
    forall r | r in rows ensures ParentLink(rows, r.id) == r.parent { LinkOfRow(rows, r); }
  }

  /** What one more row adds to each list. */
  lemma SnocLists(init: seq<Span>, last: Span, present: set<Id>)
    ensures forall p :: Kids(init + [last], p) == Kids(init, p) + if last.parent == Some(p) then [last.id] else []
    ensures last.parent.None? || last.parent.value !in present ==>
              Tops(init + [last], present) == Tops(init, present) + [last.id]
    ensures last.parent.Some? && last.parent.value in present ==> Tops(init + [last], present) == Tops(init, present)
    ensures Orphans(init + [last], present) ==
            Orphans(init, present) + if last.parent.Some? && last.parent.value !in present then {last.id} else {}
  {
    assert (init + [last])[..|init|] == init;
    assert last in init + [last];
  }

  lemma NoRowsNoLists(present: set<Id>)
    ensures Tops([], present) == [] && Orphans([], present) == {} && forall p :: Kids([], p) == []
  {
  }

  /** The source's two loops. */
  method Assemble(rows: seq<Span>) returns (children: map<Id, seq<Id>>, roots: seq<Id>, missing: set<Id>)
    requires DistinctIds(rows)
    ensures children.Keys == Ids(rows) && forall p :: p in children ==> children[p] == Kids(rows, p)
    ensures roots == Roots(rows)
    ensures missing == set x | x in Ids(rows) && Missing(rows, x)
  {
    hide Kids, Tops, Orphans, Missing;
    children := Nodes(rows);
    roots, missing := [], {};
    NoRowsNoLists(Ids(rows));
    for i := 0 to |rows|
      invariant children.Keys == Ids(rows)
      invariant forall p :: p in children ==> children[p] == Kids(rows[..i], p)
      invariant roots == Tops(rows[..i], Ids(rows))
      invariant missing == Orphans(rows[..i], Ids(rows))
    {
      SnocLists(rows[..i], rows[i], Ids(rows));
      assert rows[..i + 1] == rows[..i] + [rows[i]];
      var node := rows[i];
      if node.parent.None? || node.parent.value !in children {
        if node.parent.Some? {
          missing := missing + {node.id};
        }
        roots := roots + [node.id];
      } else {
        var p := node.parent.value;
        children := children[p := children[p] + [node.id]];
      }
    }
    assert rows[..|rows|] == rows;
    OrphansAreMissing(rows);
  }

  // --- depth -------------------------------------------------------------------------------

  /** `x` hangs `d` levels below a root. */
  predicate AtDepth(rows: seq<Span>, x: Id, d: nat)
    decreases d
  {
    x in Ids(rows) &&
    match ParentIn(rows, x)
    case None => d == 0
    case Some(p) => d > 0 && AtDepth(rows, p, d - 1)
  }

  lemma {:induction false} OneDepth(rows: seq<Span>, x: Id, d: nat, e: nat)
    requires AtDepth(rows, x, d) && AtDepth(rows, x, e)
    ensures d == e
    decreases d
  {
    if d > 0 {
      OneDepth(rows, ParentIn(rows, x).value, d - 1, e - 1);
    }
  }

  ghost predicate WithinDepth(rows: seq<Span>, x: Id, d: nat) {
    exists e: nat :: e <= d && AtDepth(rows, x, e)
  }

  /** The ancestors of `x`, itself first: one at each depth, so all different. */
  lemma {:induction false} AncestorsFit(rows: seq<Span>, x: Id, d: nat) returns (up: set<Id>)
    requires AtDepth(rows, x, d)
    ensures up <= Ids(rows) && |up| == d + 1
    ensures forall y :: y in up ==> WithinDepth(rows, y, d)
    decreases d
  {
    if d == 0 {
      up := {x};
      assert WithinDepth(rows, x, d);
    } else {
      var above := AncestorsFit(rows, ParentIn(rows, x).value, d - 1);
      if x in above {
        var e: nat :| e <= d - 1 && AtDepth(rows, x, e);
        OneDepth(rows, x, d, e);
      }
      up := above + {x};
      assert WithinDepth(rows, x, d);
      forall y | y in above ensures WithinDepth(rows, y, d) {
        var e: nat :| e <= d - 1 && AtDepth(rows, y, e);
      }
    }
  }

  lemma {:induction false} CountIds(rows: seq<Span>)
    ensures |Ids(rows)| <= |rows|
  {
    if rows != [] {
      var init, last := rows[..|rows| - 1], rows[|rows| - 1];
      CountIds(init);
      assert rows == init + [last];
      assert Ids(rows) == Ids(init) + {last.id};
    }
  }

  lemma SubsetSize<T>(a: set<T>, b: set<T>)
    requires a <= b
    ensures |a| <= |b|
    decreases a
  {
    if a != {} {
      var x :| x in a;
      SubsetSize(a - {x}, b - {x});
    }
  }

  lemma DepthBound(rows: seq<Span>, x: Id, d: nat)
    requires AtDepth(rows, x, d)
    ensures d < |rows|
  {
    var up := AncestorsFit(rows, x, d);
    SubsetSize(up, Ids(rows));
    CountIds(rows);
  }

  lemma KidsDepth(rows: seq<Span>, p: Id, d: nat)
    requires DistinctIds(rows) && AtDepth(rows, p, d)
    ensures forall x :: x in Kids(rows, p) ==> AtDepth(rows, x, d + 1)
  {
    forall x | x in Kids(rows, p) ensures AtDepth(rows, x, d + 1) {
      InKids(rows, p, x);
      PlacedOnce(rows, x);
    }
  }

  lemma RootsDepth(rows: seq<Span>)
    requires DistinctIds(rows)
    ensures forall x :: x in Roots(rows) ==> AtDepth(rows, x, 0)
  {
    forall x | x in Roots(rows) ensures AtDepth(rows, x, 0) {
      InTops(rows, Ids(rows), x);
      PlacedOnce(rows, x);
    }
  }

  // --- the tree the client walks --------------------------------------------------------------

  /** The node of `x` with its children filled in. The recursion ends because a node `d`
      levels down has `d` different ancestors. */
  function TreeAt(rows: seq<Span>, x: Id, d: nat): Tree
    requires DistinctIds(rows) && AtDepth(rows, x, d)
    decreases |rows| - d, 0
  {
    DepthBound(rows, x, d);
    KidsDepth(rows, x, d);
    Tree(x, Missing(rows, x), TreesAt(rows, Kids(rows, x), d + 1))
  }

  function TreesAt(rows: seq<Span>, xs: seq<Id>, d: nat): seq<Tree>
    requires DistinctIds(rows) && d <= |rows| && forall x :: x in xs ==> AtDepth(rows, x, d)
    decreases |rows| - d, |xs| + 1
  {
    if xs == [] then [] else TreesAt(rows, xs[..|xs| - 1], d) + [TreeAt(rows, xs[|xs| - 1], d)]
  }

  /** What `get_trace` returns. */
  function ForestOf(rows: seq<Span>): seq<Tree>
    requires DistinctIds(rows)
  {
    RootsDepth(rows);
    TreesAt(rows, Roots(rows), 0)
  }

  /** The order in which the client's recursive walk visits the nodes. */
  function Walk(t: Tree): seq<Id> {
    [t.id] + WalkAll(t.children)
  }

  function WalkAll(ts: seq<Tree>): seq<Id> {
    if ts == [] then [] else WalkAll(ts[..|ts| - 1]) + Walk(ts[|ts| - 1])
  }

  /** `a` is `x` itself or an ancestor, `n` levels up. */
  predicate Above(rows: seq<Span>, a: Id, x: Id, n: nat)
    decreases n
  {
    if n == 0 then a == x
    else ParentIn(rows, x).Some? && Above(rows, a, ParentIn(rows, x).value, n - 1)
  }

  lemma {:induction false} AboveDepth(rows: seq<Span>, a: Id, x: Id, n: nat, d: nat)
    requires AtDepth(rows, x, d) && Above(rows, a, x, n)
    ensures n <= d && AtDepth(rows, a, d - n)
    decreases n
  {
    if n > 0 {
      AboveDepth(rows, a, ParentIn(rows, x).value, n - 1, d - 1);
    }
  }

  lemma {:induction false} OneAbove(rows: seq<Span>, a: Id, b: Id, x: Id, n: nat)
    requires Above(rows, a, x, n) && Above(rows, b, x, n)
    ensures a == b
    decreases n
  {
    if n > 0 {
      OneAbove(rows, a, b, ParentIn(rows, x).value, n - 1);
    }
  }

  /** The child of `a` on the way down to `x`. */
  lemma {:induction false} StepBelow(rows: seq<Span>, a: Id, x: Id, n: nat) returns (c: Id)
    requires Above(rows, a, x, n) && n > 0
    ensures Above(rows, c, x, n - 1) && ParentIn(rows, c) == Some(a)
    decreases n
  {
    if n == 1 {
      c := x;
    } else {
      c := StepBelow(rows, a, ParentIn(rows, x).value, n - 1);
    }
  }

  lemma {:induction false} ParentAbove(rows: seq<Span>, c: Id, a: Id, x: Id, n: nat)
    requires Above(rows, c, x, n) && ParentIn(rows, c) == Some(a)
    ensures Above(rows, a, x, n + 1)
    decreases n
  {
    if n > 0 {
      ParentAbove(rows, c, a, ParentIn(rows, x).value, n - 1);
    }
  }

  /** `x` is below `a`, or `a` itself. */
  ghost predicate Below(rows: seq<Span>, a: Id, x: Id) {
    exists n: nat :: Above(rows, a, x, n)
  }

  predicate Disjoint(xs: seq<Id>, ys: seq<Id>) {
    forall x :: x in xs ==> x !in ys
  }

  lemma ConcatDistinct(xs: seq<Id>, ys: seq<Id>)
    requires Distinct(xs) && Distinct(ys) && Disjoint(xs, ys)
    ensures Distinct(xs + ys)
  {
    forall i, j | 0 <= i < j < |xs + ys| ensures (xs + ys)[i] != (xs + ys)[j] {
      if i < |xs| <= j {
        assert xs[i] in xs && ys[j - |xs|] in ys;
      }
    }
  }

  /** Nodes at one depth have nothing below them in common. */
  lemma SeparateSubtrees(rows: seq<Span>, a: Id, b: Id, d: nat, x: Id)
    requires AtDepth(rows, a, d) && AtDepth(rows, b, d) && x in Ids(rows)
    requires Below(rows, a, x) && Below(rows, b, x)
    ensures a == b
  {
    var n: nat :| Above(rows, a, x, n);
    var m: nat :| Above(rows, b, x, m);
    BelowDepth(rows, a, x, n, d);
    BelowDepth(rows, b, x, m, d);
    OneDepth(rows, x, d + n, d + m);
    OneAbove(rows, a, b, x, n);
  }

  lemma {:induction false} BelowDepth(rows: seq<Span>, a: Id, x: Id, n: nat, d: nat)
    requires AtDepth(rows, a, d) && Above(rows, a, x, n) && x in Ids(rows)
    ensures AtDepth(rows, x, d + n)
    decreases n
  {
    if n > 0 {
      var p := ParentIn(rows, x).value;
      BelowDepth(rows, a, p, n - 1, d);
    }
  }

  /** What hangs below a child of `x` hangs below `x`. */
  lemma BelowKid(rows: seq<Span>, x: Id, k: Id, y: Id)
    requires DistinctIds(rows) && x in Ids(rows) && k in Kids(rows, x) && Below(rows, k, y)
    ensures Below(rows, x, y)
  {
    InKids(rows, x, k);
    PlacedOnce(rows, k);
    var n: nat :| Above(rows, k, y, n);
    ParentAbove(rows, k, x, y, n);
  }

  /** What hangs below `x`, other than `x`, hangs below one of its children. */
  lemma KidAbove(rows: seq<Span>, x: Id, y: Id) returns (k: Id)
    requires DistinctIds(rows) && x in Ids(rows) && y in Ids(rows) && x != y && Below(rows, x, y)
    ensures k in Kids(rows, x) && Below(rows, k, y)
  {
    var n: nat :| Above(rows, x, y, n);
    k := StepBelow(rows, x, y, n);
    AboveIsRow(rows, k, y, n - 1);
    PlacedOnce(rows, k);
  }

  lemma NotBelowItsKids(rows: seq<Span>, x: Id, k: Id, d: nat)
    requires AtDepth(rows, x, d) && AtDepth(rows, k, d + 1)
    ensures !Below(rows, k, x)
  {
    if Below(rows, k, x) {
      var n: nat :| Above(rows, k, x, n);
      BelowDepth(rows, k, x, n, d + 1);
      OneDepth(rows, x, d, d + 1 + n);
    }
  }

  lemma BelowSelf(rows: seq<Span>, x: Id)
    ensures Below(rows, x, x)
  {
    assert Above(rows, x, x, 0);
  }

  /** The walk of a node visits what hangs below it, and nothing twice. */
  lemma {:induction false} WalkVisits(rows: seq<Span>, x: Id, d: nat)
    requires DistinctIds(rows) && AtDepth(rows, x, d)
    ensures forall y :: y in Walk(TreeAt(rows, x, d)) <==> y in Ids(rows) && Below(rows, x, y)
    ensures Distinct(Walk(TreeAt(rows, x, d)))
    decreases |rows| - d, 0
  {
    assert x in Ids(rows);
    hide Below, AtDepth, DistinctIds, Kids, Ids, Distinct;
    DepthBound(rows, x, d);
    KidsDepth(rows, x, d);
    var kids := Kids(rows, x);
    ListsDistinct(rows, {}, x);
    WalksVisit(rows, kids, d + 1);
    var below := WalkAll(TreesAt(rows, kids, d + 1));
    assert Walk(TreeAt(rows, x, d)) == [x] + below;
    forall y | y in Ids(rows) ensures y in [x] + below <==> Below(rows, x, y) {
      if y == x {
        BelowSelf(rows, x);
      } else if Below(rows, x, y) {
        var k := KidAbove(rows, x, y);
      } else if y in below {
        var k :| k in kids && Below(rows, k, y);
        BelowKid(rows, x, k, y);
      }
    }
    if x in below {
      var k :| k in kids && Below(rows, k, x);
      NotBelowItsKids(rows, x, k, d);
    }
    ConcatDistinct([x], below);
  }

  lemma {:induction false} AboveIsRow(rows: seq<Span>, a: Id, x: Id, n: nat)
    requires Above(rows, a, x, n) && x in Ids(rows)
    ensures a in Ids(rows)
    decreases n
  {
    if n > 0 {
      AboveIsRow(rows, a, ParentIn(rows, x).value, n - 1);
    }
  }

  lemma {:induction false} WalksVisit(rows: seq<Span>, xs: seq<Id>, d: nat)
    requires DistinctIds(rows) && d <= |rows| && Distinct(xs) && forall x :: x in xs ==> AtDepth(rows, x, d)
    ensures forall y :: y in WalkAll(TreesAt(rows, xs, d)) <==> y in Ids(rows) && exists x :: x in xs && Below(rows, x, y)
    ensures Distinct(WalkAll(TreesAt(rows, xs, d)))
    decreases |rows| - d, |xs| + 1
  {
    if xs != [] {
      var init, last := xs[..|xs| - 1], xs[|xs| - 1];
      assert xs == init + [last];
      WalksVisit(rows, init, d);
      WalkVisits(rows, last, d);
      var before, here := WalkAll(TreesAt(rows, init, d)), Walk(TreeAt(rows, last, d));
      assert WalkAll(TreesAt(rows, xs, d)) == before + here by {
        assert TreesAt(rows, xs, d)[..|xs| - 1] == TreesAt(rows, init, d) by {
          TreesCount(rows, xs, d);
          TreesCount(rows, init, d);
        }
      }
      forall y | y in before ensures y !in here {
        if y in here {
          var x :| x in init && Below(rows, x, y);
          SeparateSubtrees(rows, x, last, d, y);
        }
      }
      ConcatDistinct(before, here);
    }
  }

  lemma {:induction false} TreesCount(rows: seq<Span>, xs: seq<Id>, d: nat)
    requires DistinctIds(rows) && d <= |rows| && forall x :: x in xs ==> AtDepth(rows, x, d)
    ensures |TreesAt(rows, xs, d)| == |xs|
    ensures forall i :: 0 <= i < |xs| ==> TreesAt(rows, xs, d)[i] == TreeAt(rows, xs[i], d)
    decreases |xs|
  {
    if xs != [] {
      TreesCount(rows, xs[..|xs| - 1], d);
    }
  }

  ghost predicate Rooted(rows: seq<Span>, x: Id) {
    exists d: nat :: AtDepth(rows, x, d)
  }

  /** The walk from the roots ends, never repeats a span, and visits exactly the spans that
      hang from a root. */
  lemma WalkFromRoots(rows: seq<Span>)
    requires DistinctIds(rows)
    ensures Distinct(WalkAll(ForestOf(rows)))
    ensures forall x :: x in WalkAll(ForestOf(rows)) <==> x in Ids(rows) && Rooted(rows, x)
  {
    RootsDepth(rows);
    ListsDistinct(rows, Ids(rows), "");
    WalksVisit(rows, Roots(rows), 0);
    forall x | x in Ids(rows)
      ensures Rooted(rows, x) <==> exists r :: r in Roots(rows) && Below(rows, r, x)
    {
      if Rooted(rows, x) {
        var d: nat :| AtDepth(rows, x, d);
        var r := RootAbove(rows, x, d);
        PlacedOnce(rows, r);
        assert r in Roots(rows) && Below(rows, r, x);
      }
      if exists r :: r in Roots(rows) && Below(rows, r, x) {
        var r :| r in Roots(rows) && Below(rows, r, x);
        var n: nat :| Above(rows, r, x, n);
        BelowDepth(rows, r, x, n, 0);
      }
    }
  }

  lemma {:induction false} RootAbove(rows: seq<Span>, x: Id, d: nat) returns (r: Id)
    requires AtDepth(rows, x, d)
    ensures Above(rows, r, x, d) && r in Ids(rows) && ParentIn(rows, r).None?
    decreases d
  {
    if d == 0 {
      r := x;
    } else {
      r := RootAbove(rows, ParentIn(rows, x).value, d - 1);
    }
  }

  // --- the walk is complete exactly without cycles ---------------------------------------------------

  /** Some span is its own ancestor. */
  ghost predicate HasCycle(rows: seq<Span>) {
    exists x, n: nat :: x in Ids(rows) && n > 0 && Above(rows, x, x, n)
  }

  lemma {:induction false} AboveAdd(rows: seq<Span>, a: Id, b: Id, x: Id, n: nat, m: nat)
    requires Above(rows, b, x, n) && Above(rows, a, x, n + m)
    ensures Above(rows, a, b, m)
    decreases n
  {
    if n > 0 {
      AboveAdd(rows, a, b, ParentIn(rows, x).value, n - 1, m);
    }
  }

  lemma RootedUp(rows: seq<Span>, x: Id)
    requires x in Ids(rows)
    ensures ParentIn(rows, x).None? ==> Rooted(rows, x)
    ensures ParentIn(rows, x).Some? && Rooted(rows, ParentIn(rows, x).value) ==> Rooted(rows, x)
  {
    if ParentIn(rows, x).None? {
      assert AtDepth(rows, x, 0);
    } else if Rooted(rows, ParentIn(rows, x).value) {
      var d: nat :| AtDepth(rows, ParentIn(rows, x).value, d);
      assert AtDepth(rows, x, d + 1);
    }
  }

  /** From a span that hangs from no root one can climb forever. */
  lemma {:induction false} Climb(rows: seq<Span>, x: Id, n: nat) returns (a: Id)
    requires x in Ids(rows) && !Rooted(rows, x)
    ensures Above(rows, a, x, n) && a in Ids(rows)
    decreases n
  {
    if n == 0 {
      a := x;
    } else {
      RootedUp(rows, x);
      a := Climb(rows, ParentIn(rows, x).value, n - 1);
    }
  }

  ghost predicate AboveWithin(rows: seq<Span>, a: Id, x: Id, n: nat) {
    exists m: nat :: m <= n && Above(rows, a, x, m)
  }

  /** Climbing `n` times without meeting a span twice takes `n + 1` spans. */
  lemma {:induction false} ClimbRepeats(rows: seq<Span>, x: Id, n: nat) returns (seen: set<Id>)
    requires x in Ids(rows) && !Rooted(rows, x)
    ensures HasCycle(rows) || |seen| == n + 1
    ensures seen <= Ids(rows)
    ensures forall y :: y in seen ==> AboveWithin(rows, y, x, n)
    decreases n
  {
    var a := Climb(rows, x, n);
    assert AboveWithin(rows, a, x, n);
    if n == 0 {
      seen := {a};
    } else {
      var before := ClimbRepeats(rows, x, n - 1);
      if a in before {
        var m: nat :| m <= n - 1 && Above(rows, a, x, m);
        AboveAdd(rows, a, a, x, m, n - m);
      }
      seen := before + {a};
      forall y | y in before ensures AboveWithin(rows, y, x, n) {
        var m: nat :| m <= n - 1 && Above(rows, y, x, m);
      }
    }
  }

  lemma NoCycleNoRoot(rows: seq<Span>, x: Id)
    requires x in Ids(rows) && !Rooted(rows, x)
    ensures HasCycle(rows)
  {
    var seen := ClimbRepeats(rows, x, |rows|);
    if !HasCycle(rows) {
      SubsetSize(seen, Ids(rows));
      CountIds(rows);
    }
  }

  /** The walk visits every span exactly when the parent links have no cycle. */
  lemma WalkCompleteIffAcyclic(rows: seq<Span>)
    requires DistinctIds(rows)
    ensures (forall x :: x in Ids(rows) ==> x in WalkAll(ForestOf(rows))) <==> !HasCycle(rows)
  {
    WalkFromRoots(rows);
    if HasCycle(rows) {
      var x, n: nat :| x in Ids(rows) && n > 0 && Above(rows, x, x, n);
      if Rooted(rows, x) {
        var d: nat :| AtDepth(rows, x, d);
        AboveDepth(rows, x, x, n, d);
        OneDepth(rows, x, d, d - n);
      }
    } else {
      forall x | x in Ids(rows) ensures Rooted(rows, x) {
        if !Rooted(rows, x) {
          NoCycleNoRoot(rows, x);
        }
      }
    }
  }
}
