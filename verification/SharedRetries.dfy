/** Retry counts with several workers: the count of a message is exact unless it may be claimed
    from a worker that has it in hand. */
module SharedRetries {
  import opened Tables
  import opened Events
  import opened Ingest
  import opened StreamWorker
  import opened Consumer
  import opened Retries

  /** The messages a worker still has in hand, in the order it will come to them. */
  function InHand(p: Phase): seq<nat> {
    match p
    case Idle => []
    case Parking(poison, parsed) => poison + parsed
    case Batch(ids) => ids
    case AckBatch(ids) => ids
    case ClearBatch(ids) => ids
    case Alone(ids) => ids
    case AckOne(id, rest) => [id] + rest
    case ClearOne(id, rest) => [id] + rest
    case Failed(id, rest) => [id] + rest
    case Counted(id, _, rest) => [id] + rest
    case Writing(id, next) => [id] + InHand(next)
    case AckDead(id, next) => [id] + InHand(next)
    case ClearDead(id, next) => [id] + InHand(next)
  }

  predicate Once(ids: seq<nat>, x: nat) {
    multiset(ids)[x] <= 1
  }

  lemma OnceFirst(id: nat, rest: seq<nat>, x: nat)
    requires Once([id] + rest, x)
    ensures Once(rest, x) && (id == x ==> x !in rest)
    ensures multiset([id] + rest)[x] == multiset(rest)[x] + if id == x then 1 else 0
  {
    assert multiset([id] + rest) == multiset([id]) + multiset(rest);
    assert x in rest <==> x in multiset(rest);
  }

  // --- one message at one point of a call -----------------------------------------------------

  /** Pending, with its failures counted exactly and not dead. */
  predicate Waiting(s: Store, x: nat) {
    x in s.pending && x !in s.acked && x < s.delivered && !Dead(s, x) && Count(s.retries, x) == Count(s.failures, x)
  }

  predicate Retryable(s: Store, x: nat, parsed: bool) {
    Waiting(s, x) && Count(s.failures, x) < MAX_RETRIES && IsParsed(s, x) == parsed
  }

  /** Its event is committed and it is acked; the count may still be there. */
  predicate Done(s: Store, x: nat) {
    && x in s.acked && x !in s.pending && x < s.delivered && IsParsed(s, x)
    && !Dead(s, x) && Count(s.failures, x) < MAX_RETRIES
  }

  /** To be dead-lettered, for the right reason. */
  predicate Due(s: Store, x: nat) {
    x < s.delivered && if IsParsed(s, x) then Count(s.failures, x) == MAX_RETRIES else Count(s.failures, x) <= MAX_RETRIES
  }

  /** What holds of message `x` where the worker has it in hand. */
  predicate InOrder(s: Store, p: Phase, x: nat) {
    match p
    case Idle => true
    case Parking(poison, parsed) => (x in poison ==> Retryable(s, x, false)) && (x in parsed ==> Retryable(s, x, true))
    case Batch(ids) => x in ids ==> Retryable(s, x, true)
    case AckBatch(ids) => x in ids ==> Retryable(s, x, true)
    case ClearBatch(ids) => x in ids ==> Done(s, x)
    case Alone(ids) => x in ids ==> Retryable(s, x, true)
    case AckOne(id, rest) => x in [id] + rest ==> Retryable(s, x, true)
    case ClearOne(id, rest) => (x == id ==> Done(s, x)) && (x in rest ==> Retryable(s, x, true))
    case Failed(id, rest) => x in [id] + rest ==> Retryable(s, x, true)
    case Counted(id, count, rest) =>
      && (x == id ==> Waiting(s, x) && IsParsed(s, x) && Count(s.failures, x) == count <= MAX_RETRIES)
      && (x in rest ==> Retryable(s, x, true))
    case Writing(id, next) => (x == id ==> Waiting(s, x) && Due(s, x)) && InOrder(s, next, x)
    case AckDead(id, next) =>
      (x == id ==> x in s.pending && x !in s.acked && Dead(s, x) && Due(s, x)) && InOrder(s, next, x)
    case ClearDead(id, next) =>
      (x == id ==> x in s.acked && x !in s.pending && Dead(s, x) && Due(s, x)) && InOrder(s, next, x)
  }

  /** Nothing about message `x` changed, whatever was added to the stream. */
  predicate SameHere(s: Store, t: Store, x: nat) {
    && IsParsed(s, x) == IsParsed(t, x) && (x < s.delivered ==> x < t.delivered)
    && (x in s.pending <==> x in t.pending) && (x in s.acked <==> x in t.acked)
    && (x in s.retries <==> x in t.retries) && Count(s.retries, x) == Count(t.retries, x)
    && Count(s.failures, x) == Count(t.failures, x) && (Dead(s, x) <==> Dead(t, x))
  }

  lemma SameDone(s: Store, t: Store, x: nat)
    requires SameHere(s, t, x)
    ensures forall parsed :: Retryable(s, x, parsed) ==> Retryable(t, x, parsed)
    ensures Done(s, x) ==> Done(t, x)
    ensures Waiting(s, x) ==> Waiting(t, x)
    ensures Due(s, x) ==> Due(t, x)
    ensures Bounded(s, x) ==> Bounded(t, x)
  {
  }

  lemma SamePlace(s: Store, t: Store, x: nat)
    requires SameHere(s, t, x)
    ensures (x in s.pending <==> x in t.pending) && (x in s.acked <==> x in t.acked) && (Dead(s, x) <==> Dead(t, x))
    ensures IsParsed(s, x) == IsParsed(t, x) && Count(s.failures, x) == Count(t.failures, x)
  {
  }

  /** What a worker relies on does not change while its message does not. */
  lemma {:induction false} SameInOrder(s: Store, t: Store, p: Phase, x: nat)
    requires InOrder(s, p, x) && SameHere(s, t, x)
    ensures InOrder(t, p, x)
  {
    hide SameHere, Retryable, IsParsed, Waiting, Done, Due, Dead;
    SameDone(s, t, x);
    SamePlace(s, t, x);
    match p
    case Writing(id, next) => SameInOrder(s, t, next, x);
    case AckDead(id, next) => SameInOrder(s, t, next, x);
    case ClearDead(id, next) => SameInOrder(s, t, next, x);
    case _ =>
  }

  /** A worker relies on nothing about messages it does not have. */
  lemma {:induction false} NotInHand(s: Store, p: Phase, x: nat)
    requires x !in InHand(p)
    ensures InOrder(s, p, x)
    decreases p, 0
  {
    hide Retryable, IsParsed, Waiting, Done, Due, Dead;
    match p
    case Parking(poison, parsed) => assert x in poison || x in parsed ==> x in poison + parsed;
    case AckOne(id, rest) => assert x == id || x in rest ==> x in [id] + rest;
    case ClearOne(id, rest) => assert x == id || x in rest ==> x in [id] + rest;
    case Failed(id, rest) => assert x == id || x in rest ==> x in [id] + rest;
    case Counted(id, _, rest) => assert x == id || x in rest ==> x in [id] + rest;
    case Writing(id, next) => NotInRest(s, id, next, x);
    case AckDead(id, next) => NotInRest(s, id, next, x);
    case ClearDead(id, next) => NotInRest(s, id, next, x);
    case _ =>
  }

  lemma {:induction false} NotInRest(s: Store, id: nat, next: Phase, x: nat)
    requires x !in [id] + InHand(next)
    ensures x != id && InOrder(s, next, x)
    decreases next, 1
  {
    assert x == id || x in InHand(next) ==> x in [id] + InHand(next);
    NotInHand(s, next, x);
  }

  // --- one step ----------------------------------------------------------------------------------

  lemma TransactSame(s: Store, ids: seq<nat>, a: Attempt, x: nat)
    requires Transact(s, ids, a).Some?
    ensures SameHere(s, Transact(s, ids, a).value, x)
  {
    hide ApplyEvents, EventsAt;
  }

  lemma SameItself(s: Store, x: nat)
    ensures SameHere(s, s, x)
  {
  }

  /** A step changes nothing about messages the worker does not have in hand. */
  lemma StepSame(s: Store, p: Phase, a: Attempt, x: nat)
    requires x !in InHand(p)
    ensures SameHere(s, Step(s, p, a).0, x)
  {
    hide Transact, InHand;
    SameItself(s, x);
    match p
    case Batch(ids) => if Transact(s, ids, a).Some? { TransactSame(s, ids, a, x); }
    case Alone(ids) => if ids != [] && Transact(s, [ids[0]], a).Some? { TransactSame(s, [ids[0]], a, x); }
    case AckBatch(ids) => assert x !in IdSet(ids) by { HandOf(p, x); }
    case ClearBatch(ids) => assert x !in IdSet(ids) by { HandOf(p, x); }
    case _ => HandOf(p, x);
  }

  lemma HandOf(p: Phase, x: nat)
    requires x !in InHand(p)
    ensures p.AckBatch? || p.ClearBatch? ==> x !in IdSet(p.ids)
    ensures p.AckOne? || p.ClearOne? || p.Failed? || p.Counted? || p.Writing? || p.AckDead? || p.ClearDead? ==> x != p.id
  {
    if !p.Idle? && !p.Parking? && !p.Batch? && !p.AckBatch? && !p.ClearBatch? && !p.Alone? {
      assert p.id in InHand(p);
    }
  }

  /** After the step the message is in order where the worker still has it, and counted exactly
      if the worker lets go of it. */
  ghost predicate StepsWell(s: Store, p: Phase, a: Attempt, x: nat) {
    var (t, q) := Step(s, p, a);
    && InOrder(t, q, x) && multiset(InHand(q))[x] <= multiset(InHand(p))[x]
    && (x in InHand(p) && x !in InHand(q) ==> Bounded(t, x))
  }

  lemma SingleSame(s: Store, id: nat, a: Attempt, x: nat)
    requires x != id
    ensures SameHere(s, Acked(s, {id}), x) && SameHere(s, Cleared(s, {id}), x)
    ensures SameHere(s, Missed(s, id), x) && SameHere(s, Lettered(s, id, a), x)
  {
  }

  /** What comes after message `id` is in order after a step that changes only `id`. */
  lemma NextSame(s: Store, t: Store, id: nat, next: Phase, x: nat)
    requires Once([id] + InHand(next), x) && InOrder(s, next, x) && (x != id ==> SameHere(s, t, x))
    ensures InOrder(t, next, x)
    ensures multiset([id] + InHand(next))[x] == multiset(InHand(next))[x] + if id == x then 1 else 0
    ensures x in [id] + InHand(next) <==> x == id || x in InHand(next)
  {
    hide InOrder, SameHere, InHand;
    OnceFirst(id, InHand(next), x);
    if x == id { NotInHand(t, next, x); } else { SameInOrder(s, t, next, x); }
  }

  lemma ParkingWell(s: Store, poison: seq<nat>, parsed: seq<nat>, a: Attempt, x: nat)
    requires InOrder(s, Parking(poison, parsed), x)
    ensures StepsWell(s, Parking(poison, parsed), a, x)
  {
    if poison != [] {
      assert [poison[0]] + (poison[1..] + parsed) == poison + parsed;
      assert x in poison[1..] ==> x in poison;
    } else {
      assert poison + parsed == parsed;
    }
  }

  lemma BatchWell(s: Store, ids: seq<nat>, a: Attempt, x: nat)
    requires InOrder(s, Phase.Batch(ids), x)
    ensures StepsWell(s, Phase.Batch(ids), a, x)
  {
    hide Transact, Retryable, SameHere;
    if Transact(s, ids, a).Some? {
      TransactSame(s, ids, a, x);
      SameDone(s, Transact(s, ids, a).value, x);
    }
  }

  lemma AckBatchWell(s: Store, ids: seq<nat>, a: Attempt, x: nat)
    requires InOrder(s, AckBatch(ids), x)
    ensures StepsWell(s, AckBatch(ids), a, x)
  {
    assert x in ids ==> x in IdSet(ids);
  }

  lemma ClearBatchWell(s: Store, ids: seq<nat>, a: Attempt, x: nat)
    requires InOrder(s, ClearBatch(ids), x)
    ensures StepsWell(s, ClearBatch(ids), a, x)
  {
    assert x in ids ==> x in IdSet(ids);
  }

  lemma AloneWell(s: Store, ids: seq<nat>, a: Attempt, x: nat)
    requires InOrder(s, Alone(ids), x)
    ensures StepsWell(s, Alone(ids), a, x)
  {
    hide Transact, Retryable, SameHere;
    if ids != [] {
      assert [ids[0]] + ids[1..] == ids;
      if Transact(s, [ids[0]], a).Some? {
        TransactSame(s, [ids[0]], a, x);
        SameDone(s, Transact(s, [ids[0]], a).value, x);
      }
    }
  }

  lemma InRest(id: nat, rest: seq<nat>, x: nat)
    ensures x in [id] + rest <==> x == id || x in rest
  {
  }

  lemma AckOneWell(s: Store, id: nat, rest: seq<nat>, a: Attempt, x: nat)
    requires InOrder(s, AckOne(id, rest), x) && Once(InHand(AckOne(id, rest)), x)
    ensures StepsWell(s, AckOne(id, rest), a, x)
  {
    hide SameHere, Once;
    InRest(id, rest, x);
    var t := Acked(s, {id});
    if x != id { SingleSame(s, id, a, x); }
    NextSame(s, t, id, Alone(rest), x);
    OnceFirst(id, rest, x);
  }

  lemma ClearOneWell(s: Store, id: nat, rest: seq<nat>, a: Attempt, x: nat)
    requires InOrder(s, ClearOne(id, rest), x) && Once(InHand(ClearOne(id, rest)), x)
    ensures StepsWell(s, ClearOne(id, rest), a, x)
  {
    hide SameHere;
    var t := Cleared(s, {id});
    if x != id { SingleSame(s, id, a, x); }
    NextSame(s, t, id, Alone(rest), x);
  }

  lemma FailedWell(s: Store, id: nat, rest: seq<nat>, a: Attempt, x: nat)
    requires InOrder(s, Failed(id, rest), x) && Once(InHand(Failed(id, rest)), x)
    ensures StepsWell(s, Failed(id, rest), a, x)
  {
    hide SameHere, Once;
    InRest(id, rest, x);
    var t := Missed(s, id);
    if x != id { SingleSame(s, id, a, x); }
    NextSame(s, t, id, Alone(rest), x);
    OnceFirst(id, rest, x);
  }

  lemma CountedWell(s: Store, id: nat, count: nat, rest: seq<nat>, a: Attempt, x: nat)
    requires InOrder(s, Counted(id, count, rest), x) && Once(InHand(Counted(id, count, rest)), x)
    ensures StepsWell(s, Counted(id, count, rest), a, x)
  {
    hide SameHere, Once;
    InRest(id, rest, x);
    SameItself(s, x);
    NextSame(s, s, id, Alone(rest), x);
  }

  lemma WritingWell(s: Store, id: nat, next: Phase, a: Attempt, x: nat)
    requires InOrder(s, Writing(id, next), x) && Once(InHand(Writing(id, next)), x)
    ensures StepsWell(s, Writing(id, next), a, x)
  {
    hide SameHere, Once;
    var t := Lettered(s, id, a);
    if x != id { SingleSame(s, id, a, x); }
    NextSame(s, t, id, next, x);
  }

  lemma AckedDead(s: Store, x: nat)
    requires x in s.pending && x !in s.acked && Dead(s, x) && Due(s, x)
    ensures var t := Acked(s, {x}); x in t.acked && x !in t.pending && Dead(t, x) && Due(t, x)
  {
  }

  lemma AckDeadWell(s: Store, id: nat, next: Phase, a: Attempt, x: nat)
    requires InOrder(s, AckDead(id, next), x) && Once(InHand(AckDead(id, next)), x)
    ensures StepsWell(s, AckDead(id, next), a, x)
  {
    hide SameHere, Dead, Due, Acked, Once;
    var t := Acked(s, {id});
    if x != id { SingleSame(s, id, a, x); } else { AckedDead(s, x); }
    NextSame(s, t, id, next, x);
  }

  lemma ClearDeadWell(s: Store, id: nat, next: Phase, a: Attempt, x: nat)
    requires InOrder(s, ClearDead(id, next), x) && Once(InHand(ClearDead(id, next)), x)
    ensures StepsWell(s, ClearDead(id, next), a, x)
  {
    hide SameHere;
    var t := Cleared(s, {id});
    if x != id { SingleSame(s, id, a, x); }
    NextSame(s, t, id, next, x);
  }

  lemma StepWell(s: Store, p: Phase, a: Attempt, x: nat)
    requires InOrder(s, p, x) && Once(InHand(p), x)
    ensures StepsWell(s, p, a, x)
  {
    hide InOrder, StepsWell, InHand, Once, Step;
    match p
    case Idle => assert StepsWell(s, Idle, a, x) by { IdleWell(s, a, x); }
    case Parking(poison, parsed) => ParkingWell(s, poison, parsed, a, x);
    case Batch(ids) => BatchWell(s, ids, a, x);
    case AckBatch(ids) => AckBatchWell(s, ids, a, x);
    case ClearBatch(ids) => ClearBatchWell(s, ids, a, x);
    case Alone(ids) => AloneWell(s, ids, a, x);
    case AckOne(id, rest) => AckOneWell(s, id, rest, a, x);
    case ClearOne(id, rest) => ClearOneWell(s, id, rest, a, x);
    case Failed(id, rest) => FailedWell(s, id, rest, a, x);
    case Counted(id, count, rest) => CountedWell(s, id, count, rest, a, x);
    case Writing(id, next) => WritingWell(s, id, next, a, x);
    case AckDead(id, next) => AckDeadWell(s, id, next, a, x);
    case ClearDead(id, next) => ClearDeadWell(s, id, next, a, x);
  }

  lemma IdleWell(s: Store, a: Attempt, x: nat)
    ensures StepsWell(s, Idle, a, x)
  {
  }

  // --- several workers ---------------------------------------------------------------------------

  ghost predicate Held(sys: System, x: nat) {
    exists w :: w in sys.workers && x in InHand(sys.workers[w])
  }

  /** At most one worker has the message, once, and it is in order there; or nobody has it and it
      is counted exactly. */
  ghost predicate Ordered(sys: System, x: nat) {
    && (forall w :: w in sys.workers ==> InOrder(sys.store, sys.workers[w], x) && Once(InHand(sys.workers[w]), x))
    && (forall v, w :: v in sys.workers && w in sys.workers && v != w && x in InHand(sys.workers[v]) ==>
          x !in InHand(sys.workers[w]))
    && (!Held(sys, x) ==> Bounded(sys.store, x))
  }

  /** The worker has the message. */
  predicate Has(sys: System, w: string, x: nat) {
    w in sys.workers && x in InHand(sys.workers[w])
  }

  /** Worker `w` moves to `q`, and the store to `t`. */
  lemma WorkerMoves(sys: System, w: string, t: Store, q: Phase, x: nat)
    requires Ordered(sys, x) && InOrder(t, q, x) && Once(InHand(q), x)
    requires x in InHand(q) ==> !Held(sys, x) || Has(sys, w, x)
    requires !Has(sys, w, x) && (x !in InHand(q) || Held(sys, x)) ==> SameHere(sys.store, t, x)
    requires Has(sys, w, x) && x !in InHand(q) ==> Bounded(t, x)
    ensures Ordered(System(t, sys.workers[w := q]), x)
  {
    hide InOrder, SameHere, InHand, Bounded;
    var next := System(t, sys.workers[w := q]);
    forall v | v in next.workers ensures InOrder(t, next.workers[v], x) && Once(InHand(next.workers[v]), x) {
      if v != w {
        if x in InHand(sys.workers[v]) {
          assert Held(sys, x) && !Has(sys, w, x);
          SameInOrder(sys.store, t, sys.workers[v], x);
        } else {
          NotInHand(t, sys.workers[v], x);
        }
      }
    }
    if !Held(next, x) {
      assert w in next.workers && x !in InHand(q);
      if !Has(sys, w, x) {
        forall v | v in sys.workers ensures x !in InHand(sys.workers[v]) {
          if v != w { assert next.workers[v] == sys.workers[v]; }
        }
        SameDone(sys.store, t, x);
      }
    }
  }

  lemma WorkOrdered(sys: System, w: string, a: Attempt, x: nat)
    requires Ordered(sys, x) && w in sys.workers
    ensures Ordered(Next(sys, Work(w, a)), x)
  {
    hide InOrder, SameHere, InHand, Bounded, Step;
    var s, p := sys.store, sys.workers[w];
    var (t, q) := Step(s, p, a);
    StepWell(s, p, a, x);
    assert x in InHand(q) <==> x in multiset(InHand(q));
    assert x in InHand(p) <==> x in multiset(InHand(p));
    if x !in InHand(p) { StepSame(s, p, a, x); }
    WorkerMoves(sys, w, t, q, x);
  }

  // --- beginning a call ----------------------------------------------------------------------------

  lemma TimesSnoc(init: seq<nat>, more: seq<nat>, x: nat)
    ensures multiset(init + more)[x] == multiset(init)[x] + multiset(more)[x]
  {
    assert multiset(init + more) == multiset(init) + multiset(more);
  }

  lemma SiftSnoc(s: Store, init: seq<nat>, last: nat, parsed: bool)
    ensures Sift(s, init + [last], parsed) ==
            Sift(s, init, parsed) + if last < |s.stream| && s.stream[last].Parsed? == parsed then [last] else []
  {
    assert (init + [last])[..|init|] == init;
  }

  lemma {:induction false} SiftTimes(s: Store, ids: seq<nat>, x: nat)
    ensures multiset(Sift(s, ids, false))[x] + multiset(Sift(s, ids, true))[x] <= multiset(ids)[x]
  {
    if ids != [] {
      var init, last := ids[..|ids| - 1], ids[|ids| - 1];
      SiftTimes(s, init, x);
      assert ids == init + [last];
      SiftSnoc(s, init, last, false);
      SiftSnoc(s, init, last, true);
      hide Sift;
      TimesSnoc(init, [last], x);
      TimesSnoc(Sift(s, init, false), if last < |s.stream| && !s.stream[last].Parsed? then [last] else [], x);
      TimesSnoc(Sift(s, init, true), if last < |s.stream| && s.stream[last].Parsed? then [last] else [], x);
    }
  }

  lemma {:induction false} DistinctOnce(ids: seq<nat>, x: nat)
    requires Distinct(ids)
    ensures Once(ids, x)
  {
    if ids != [] {
      var init, last := ids[..|ids| - 1], ids[|ids| - 1];
      DistinctOnce(init, x);
      assert ids == init + [last];
      assert last !in init && (x in init <==> x in multiset(init));
    }
  }

  /** A call begins with each of its messages once in hand. */
  lemma StartOnce(s: Store, ids: seq<nat>, x: nat)
    requires Distinct(ids)
    ensures Once(InHand(Start(s, ids)), x)
    ensures x in InHand(Start(s, ids)) ==> x in ids
    ensures x in ids && x < |s.stream| ==> x in InHand(Start(s, ids))
  {
    hide Sift;
    DistinctOnce(ids, x);
    SiftTimes(s, ids, x);
    var poison, parsed := Sift(s, ids, false), Sift(s, ids, true);
    assert multiset(poison + parsed) == multiset(poison) + multiset(parsed);
    InSift(s, ids, false, x);
    InSift(s, ids, true, x);
  }

  lemma StartInOrder(s: Store, ids: seq<nat>, x: nat)
    requires x in ids ==> exists parsed :: Retryable(s, x, parsed)
    ensures InOrder(s, Start(s, ids), x)
  {
    hide Sift;
    InSift(s, ids, false, x);
    InSift(s, ids, true, x);
  }

  lemma ClaimOrdered(sys: System, w: string, ids: seq<nat>, x: nat)
    requires Ordered(sys, x) && Kept(sys.store) && Distinct(ids) && IdSet(ids) <= sys.store.pending
    requires IsIdle(sys, w) && (x in ids ==> !Held(sys, x))
    ensures Ordered(sys.(workers := sys.workers[w := Start(sys.store, ids)]), x)
  {
    hide InOrder, InHand, Start;
    var s := sys.store;
    if x in ids {
      assert x in IdSet(ids) && Bounded(s, x);
      KeptPlaces(s, x);
      assert Retryable(s, x, IsParsed(s, x));
    }
    hide Bounded, Kept, Retryable;
    StartInOrder(s, ids, x);
    StartOnce(s, ids, x);
    IdleHand(sys, w);
    SameItself(s, x);
    hide SameHere;
    WorkerMoves(sys, w, s, Start(s, ids), x);
  }

  lemma IdleHand(sys: System, w: string)
    requires IsIdle(sys, w)
    ensures w in sys.workers ==> InHand(sys.workers[w]) == []
  {
  }

  lemma {:induction false} HandDelivered(s: Store, p: Phase, x: nat)
    requires InOrder(s, p, x) && x in InHand(p)
    ensures x < s.delivered
  {
    match p
    case Writing(id, next) => if x != id { HandDelivered(s, next, x); }
    case AckDead(id, next) => if x != id { HandDelivered(s, next, x); }
    case ClearDead(id, next) => if x != id { HandDelivered(s, next, x); }
    case _ =>
  }

  lemma DeliveredSame(s: Store, ids: seq<nat>, x: nat)
    requires x !in ids
    ensures SameHere(s, Delivered(s, ids), x)
  {
  }

  /** What is read is new: nobody has it, and it can be tried. */
  lemma FreshRetryable(sys: System, ids: seq<nat>, x: nat)
    requires Ordered(sys, x) && Kept(sys.store) && x in ids && sys.store.delivered + |ids| <= |sys.store.stream|
    requires forall i :: 0 <= i < |ids| ==> ids[i] == sys.store.delivered + i
    ensures !Held(sys, x) && Retryable(Delivered(sys.store, ids), x, IsParsed(sys.store, x)) && x < |sys.store.stream|
  {
    hide InOrder, InHand, Kept, Bounded, Delivered, Retryable, IsParsed;
    if Held(sys, x) {
      var v :| v in sys.workers && x in InHand(sys.workers[v]);
      HandDelivered(sys.store, sys.workers[v], x);
    }
    NewRetryable(sys.store, ids, x);
    var i :| 0 <= i < |ids| && ids[i] == x;
  }

  lemma ReadOrdered(sys: System, w: string, n: nat, x: nat)
    requires Ordered(sys, x) && Kept(sys.store) && IsIdle(sys, w)
    ensures Ordered(Next(sys, Read(w, n)), x)
  {
    hide InOrder, InHand, Start, SameHere, Bounded, Kept, Delivered, Retryable, Ordered, Held, IsParsed;
    var s := sys.store;
    var ids := StreamWorker.Fresh(s, n);
    var t := Delivered(s, ids);
    KeptFacts(s);
    if x in ids { FreshRetryable(sys, ids, x); } else { DeliveredSame(s, ids, x); }
    StartInOrder(t, ids, x);
    assert t.stream == s.stream by { SameStream(s, ids); }
    SameSift(s, t, ids, false);
    SameSift(s, t, ids, true);
    SameStart(s, t, ids);
    StartOnce(t, ids, x);
    IdleHand(sys, w);
    WorkerMoves(sys, w, t, Start(s, ids), x);
  }

  lemma SameStream(s: Store, ids: seq<nat>)
    ensures Delivered(s, ids).stream == s.stream
  {
  }

  lemma SameStart(s: Store, t: Store, ids: seq<nat>)
    requires Sift(s, ids, false) == Sift(t, ids, false) && Sift(s, ids, true) == Sift(t, ids, true)
    ensures Start(s, ids) == Start(t, ids)
  {
  }

  lemma NewRetryable(s: Store, ids: seq<nat>, x: nat)
    requires Kept(s) && x in ids && s.delivered + |ids| <= |s.stream| && Bounded(s, x)
    requires forall i :: 0 <= i < |ids| ==> ids[i] == s.delivered + i
    ensures Retryable(Delivered(s, ids), x, IsParsed(s, x))
  {
    DeliveredAt(s, ids, x);
  }

  lemma ProduceOrdered(sys: System, payload: Payload, x: nat)
    requires Ordered(sys, x) && Kept(sys.store)
    ensures Ordered(Next(sys, Produce(payload)), x)
  {
    hide InOrder, InHand;
    var s := sys.store;
    var t := s.(stream := s.stream + [payload]);
    KeptFacts(s);
    assert x < s.delivered ==> SameHere(s, t, x);
    forall w | w in sys.workers ensures InOrder(t, sys.workers[w], x) {
      if x in InHand(sys.workers[w]) {
        HandDelivered(s, sys.workers[w], x);
        SameInOrder(s, t, sys.workers[w], x);
      } else {
        NotInHand(t, sys.workers[w], x);
      }
    }
    if !Held(sys, x) {
      assert Bounded(s, x);
      if x in s.acked { AckedPlaces(s, x); }
    }
  }

  // --- runs ------------------------------------------------------------------------------------------

  /** The move is no crash, and the messages it claims from workers that have them in hand are
      all among `claimable`. */
  ghost predicate Exclusive(sys: System, m: Move, claimable: iset<nat>) {
    !m.Crash? && (m.Claim? ==> forall x :: x in m.ids && Held(sys, x) ==> x in claimable)
  }

  ghost predicate ExclusiveRun(moves: seq<Move>, claimable: iset<nat>) {
    forall i :: 0 <= i < |moves| ==> Exclusive(RunMoves(moves[..i]), moves[i], claimable)
  }

  lemma NextOrdered(sys: System, m: Move, claimable: iset<nat>, x: nat)
    requires Ordered(sys, x) && Kept(sys.store) && Exclusive(sys, m, claimable) && x !in claimable
    ensures Ordered(Next(sys, m), x)
  {
    hide Ordered, Kept, Start, Step, Held;
    match m
    case Produce(payload) => ProduceOrdered(sys, payload, x);
    case Read(w, n) => if IsIdle(sys, w) { ReadOrdered(sys, w, n, x); }
    case Claim(w, ids) =>
      if IsIdle(sys, w) && IdSet(ids) <= sys.store.pending && Distinct(ids) { ClaimOrdered(sys, w, ids, x); }
    case Work(w, a) => if w in sys.workers { WorkOrdered(sys, w, a, x); }
    case Crash(w) =>
  }

  lemma {:induction false} RunOrdered(moves: seq<Move>, claimable: iset<nat>, x: nat)
    requires ExclusiveRun(moves, claimable) && x !in claimable
    ensures Ordered(RunMoves(moves), x) && Kept(RunMoves(moves).store)
  {
    hide Ordered, Exclusive, Next;
    RunKept(moves);
    if moves == [] {
      NothingHeld(x);
    } else {
      var n := |moves| - 1;
      forall i | 0 <= i < n ensures Exclusive(RunMoves(moves[..n][..i]), moves[..n][i], claimable) {
        assert moves[..n][..i] == moves[..i] && moves[..n][i] == moves[i];
      }
      RunOrdered(moves[..n], claimable, x);
      NextOrdered(RunMoves(moves[..n]), moves[n], claimable, x);
    }
  }

  lemma NothingHeld(x: nat)
    ensures Ordered(START, x)
  {
  }

  /** Several crash-free workers, interleaved step by step, which may claim the messages among
      `claimable` from each other. Every other message that no worker has in hand is counted
      exactly. Pending, it has fewer than MAX_RETRIES failures, all in the hash; acked, it has
      none left there, and is dead exactly if it cannot be parsed or failed MAX_RETRIES times. */
  lemma RetriesExact(moves: seq<Move>, claimable: iset<nat>, x: nat)
    requires ExclusiveRun(moves, claimable) && x !in claimable && !Held(RunMoves(moves), x)
    ensures Bounded(RunMoves(moves).store, x)
  {
    hide RunMoves, Bounded, Held;
    RunOrdered(moves, claimable, x);
  }

  // --- and not otherwise ---------------------------------------------------------------------------

  lemma RunTwice(moves: seq<Move>, m: Move, n: Move)
    ensures RunMoves(moves + [m] + [n]) == Next(Next(RunMoves(moves), m), n)
  {
    StreamWorker.RunSnoc(moves, m);
    StreamWorker.RunSnoc(moves + [m], n);
  }

  /** No crash, and no claim but of message `x` alone. */
  predicate ClaimsOnly(moves: seq<Move>, x: nat) {
    forall i :: 0 <= i < |moves| ==> !moves[i].Crash? && (moves[i].Claim? ==> moves[i].ids == [x])
  }

  lemma ClaimsOnlyMore(moves: seq<Move>, more: seq<Move>, x: nat)
    requires ClaimsOnly(moves, x) && ClaimsOnly(more, x)
    ensures ClaimsOnly(moves + more, x)
  {
  }

  lemma OnlyIsExclusive(moves: seq<Move>, claimable: iset<nat>, x: nat)
    requires ClaimsOnly(moves, x) && x in claimable
    ensures ExclusiveRun(moves, claimable)
  {
    hide RunMoves, Held;
    forall i | 0 <= i < |moves| ensures Exclusive(RunMoves(moves[..i]), moves[i], claimable) {
      assert moves[i].Claim? ==> moves[i].ids == [x];
    }
  }

  /** The message's last allowed failure: it is counted, dead-lettered and acked. */
  lemma GiveUp(moves: seq<Move>, w: string, x: nat, a: Attempt) returns (more: seq<Move>)
    requires w in RunMoves(moves).workers && RunMoves(moves).workers[w] == Failed(x, [])
    requires Count(RunMoves(moves).store.retries, x) == MAX_RETRIES - 1
    ensures var end := RunMoves(moves + more);
            && end.workers == RunMoves(moves).workers[w := Alone([])]
            && x !in end.store.retries && x !in end.store.pending
            && (x in RunMoves(moves).store.pending || x in RunMoves(moves).store.acked ==> x in end.store.acked)
    ensures ClaimsOnly(more, x)
  {
    hide RunMoves;
    var work := Work(w, a);
    RunTwice(moves, work, work);
    var m2 := moves + [work] + [work];
    RunTwice(m2, work, work);
    var m4 := m2 + [work] + [work];
    StreamWorker.RunSnoc(m4, work);
    more := [work, work, work, work, work];
    assert moves + more == m4 + [work];
  }

  /** A worker counts its own failure of a message that another has acked. */
  lemma CountAcked(moves: seq<Move>, w: string, x: nat, a: Attempt)
    requires w in RunMoves(moves).workers && RunMoves(moves).workers[w] == Failed(x, [])
    requires x in RunMoves(moves).store.acked && x !in RunMoves(moves).store.retries
    ensures var end := RunMoves(moves + [Work(w, a)] + [Work(w, a)]);
            && x in end.store.acked && x in end.store.retries
            && end.workers == RunMoves(moves).workers[w := Alone([])]
  {
    hide RunMoves;
    RunTwice(moves, Work(w, a), Work(w, a));
  }

  /** When two workers have failed the same message alone, for one of them the last time: the
      first dead-letters and acks it, and the other then counts a failure of an acked message. */
  lemma SharedMessageMiscounted(moves: seq<Move>, v: string, w: string, x: nat, a: Attempt) returns (more: seq<Move>)
    requires v != w && v in RunMoves(moves).workers && w in RunMoves(moves).workers
    requires RunMoves(moves).workers[v] == Failed(x, []) && RunMoves(moves).workers[w] == Failed(x, [])
    requires Count(RunMoves(moves).store.retries, x) == MAX_RETRIES - 1
    ensures var end := RunMoves(moves + more);
            && x in end.store.acked && x in end.store.retries
            && end.workers == RunMoves(moves).workers[v := Alone([])][w := Alone([])]
    ensures ClaimsOnly(more, x)
  {
    hide RunMoves, Kept, Sound;
    RunKept(moves);
    assert Sound(RunMoves(moves).store, RunMoves(moves).workers[v]);
    HandPlaced(RunMoves(moves).store, x);
    var given := GiveUp(moves, v, x, a);
    CountAcked(moves + given, w, x, a);
    more := given + [Work(w, a)] + [Work(w, a)];
    assert moves + more == moves + given + [Work(w, a)] + [Work(w, a)];
  }

  lemma HandPlaced(s: Store, x: nat)
    requires Kept(s) && Sound(s, Failed(x, []))
    ensures x in s.pending || x in s.acked
  {
    assert x in [x] + [];
    assert x < s.delivered;
  }

  /** `x` messages came and went, and nothing is left to retry. */
  predicate Quiet(sys: System, x: nat) {
    && |sys.store.stream| == sys.store.delivered == x && sys.store.retries == map[]
    && (sys.workers == map[] || sys.workers == map["v" := Idle])
  }

  /** Message `x`, which can never be applied, is pending with `n` failures. */
  predicate Doomed(s: Store, x: nat, n: nat) {
    && |s.stream| == s.delivered == x + 1 && s.stream[x] == Parsed(Malformed, true)
    && x in s.pending && Count(s.retries, x) == n
  }

  /** A message that cannot be parsed is dead-lettered and acked. */
  lemma ParkOne(moves: seq<Move>, n: nat) returns (more: seq<Move>)
    requires |RunMoves(moves).store.stream| == RunMoves(moves).store.delivered && RunMoves(moves).store.retries == map[]
    requires RunMoves(moves).workers == map["v" := Parking([n], [])]
    ensures var s, end := RunMoves(moves).store, RunMoves(moves + more);
            && |end.store.stream| == end.store.delivered == |s.stream| && end.store.retries == map[]
            && end.workers == map["v" := Idle]
    ensures forall m :: m in more ==> m.Work?
  {
    hide RunMoves;
    var work := Work("v", Attempt(false, 0, None));
    assert [n][1..] == [];
    RunTwice(moves, work, work);
    var m2 := moves + [work] + [work];
    RunTwice(m2, work, work);
    var m4 := m2 + [work] + [work];
    StreamWorker.RunSnoc(m4, work);
    more := [work, work, work, work, work];
    assert moves + more == m4 + [work];
  }

  /** One more message comes and goes. */
  lemma PassOne(moves: seq<Move>, n: nat, x: nat) returns (all: seq<Move>)
    requires Quiet(RunMoves(moves), n) && ClaimsOnly(moves, x)
    ensures Quiet(RunMoves(all), n + 1) && ClaimsOnly(all, x)
  {
    hide RunMoves;
    var produce := Produce(Unparseable(true));
    RunTwice(moves, produce, Read("v", 1));
    var read := moves + [produce] + [Read("v", 1)];
    var s := Next(RunMoves(moves), produce).store;
    assert StreamWorker.Fresh(s, 1) == [n];
    StartOfOne(s, n);
    var more := ParkOne(read, n);
    all := read + more;
    assert forall i :: 0 <= i < |more| ==> more[i] in more;
  }

  lemma {:induction false} PassAll(n: nat, x: nat) returns (moves: seq<Move>)
    ensures Quiet(RunMoves(moves), n) && ClaimsOnly(moves, x)
  {
    if n == 0 {
      moves := [];
    } else {
      var before := PassAll(n - 1, x);
      moves := PassOne(before, n - 1, x);
    }
  }

  lemma StartOfOne(s: Store, x: nat)
    requires x < |s.stream|
    ensures Start(s, [x]) == if s.stream[x].Parsed? then Parking([], [x]) else Parking([x], [])
  {
    var ids: seq<nat> := [x];
    assert ids[..|ids| - 1] == [] && ids[|ids| - 1] == x;
    assert Sift(s, ids, false) == if s.stream[x].Parsed? then [] else [x];
    assert Sift(s, ids, true) == if s.stream[x].Parsed? then [x] else [];
  }

  lemma ReadDoomed(x: nat) returns (moves: seq<Move>)
    ensures Doomed(RunMoves(moves).store, x, 0) && RunMoves(moves).workers == map["v" := Parking([], [x])]
    ensures ClaimsOnly(moves, x)
  {
    hide RunMoves;
    var before := PassAll(x, x);
    var produce := Produce(Parsed(Malformed, true));
    moves := before + [produce] + [Read("v", 1)];
    RunTwice(before, produce, Read("v", 1));
    var s := Next(RunMoves(before), produce).store;
    assert StreamWorker.Fresh(s, 1) == [x];
    StartOfOne(s, x);
    assert x in IdSet([x]);
  }

  lemma ClaimIt(moves: seq<Move>, w: string, x: nat, n: nat) returns (all: seq<Move>)
    requires Doomed(RunMoves(moves).store, x, n) && IsIdle(RunMoves(moves), w) && ClaimsOnly(moves, x)
    ensures RunMoves(all) == RunMoves(moves).(workers := RunMoves(moves).workers[w := Parking([], [x])])
    ensures ClaimsOnly(all, x)
  {
    hide RunMoves;
    all := moves + [Claim(w, [x])];
    StreamWorker.RunSnoc(moves, Claim(w, [x]));
    StartOfOne(RunMoves(moves).store, x);
    assert IdSet([x]) == {x};
  }

  /** The batch fails, and so does the message alone. */
  lemma FailIt(moves: seq<Move>, w: string, x: nat, a: Attempt, n: nat) returns (all: seq<Move>)
    requires Doomed(RunMoves(moves).store, x, n) && w in RunMoves(moves).workers && ClaimsOnly(moves, x)
    requires RunMoves(moves).workers[w] == Parking([], [x])
    ensures RunMoves(all) == RunMoves(moves).(workers := RunMoves(moves).workers[w := Failed(x, [])])
    ensures ClaimsOnly(all, x)
  {
    hide RunMoves, Transact;
    var work := Work(w, a);
    var s := RunMoves(moves).store;
    DoomedTransact(s, x, a);
    assert [x][1..] == [];
    RunTwice(moves, work, work);
    StreamWorker.RunSnoc(moves + [work] + [work], work);
    all := moves + [work] + [work] + [work];
  }

  lemma CountIt(moves: seq<Move>, w: string, x: nat, a: Attempt, n: nat) returns (all: seq<Move>)
    requires Doomed(RunMoves(moves).store, x, n) && n + 1 < MAX_RETRIES && w in RunMoves(moves).workers
    requires RunMoves(moves).workers[w] == Failed(x, []) && ClaimsOnly(moves, x)
    ensures Doomed(RunMoves(all).store, x, n + 1) && RunMoves(all).workers == RunMoves(moves).workers[w := Idle]
    ensures ClaimsOnly(all, x)
  {
    hide RunMoves;
    var work := Work(w, a);
    RunTwice(moves, work, work);
    StreamWorker.RunSnoc(moves + [work] + [work], work);
    all := moves + [work] + [work] + [work];
  }

  /** No crash is needed: once message `x` may be claimed from under a worker, it can be acked and
      left with a count that no call clears. */
  lemma OverlapMiscounts(x: nat) returns (moves: seq<Move>)
    ensures ClaimsOnly(moves, x) && !Held(RunMoves(moves), x) && !Bounded(RunMoves(moves).store, x)
  {
    hide RunMoves, Next, ClaimsOnly;
    var a := Attempt(false, 0, None);
    var read := ReadDoomed(x);
    var m1 := FailIt(read, "v", x, a, 0);
    var m2 := CountIt(m1, "v", x, a, 0);
    var m3 := ClaimIt(m2, "v", x, 1);
    var m4 := FailIt(m3, "v", x, a, 1);
    var m5 := CountIt(m4, "v", x, a, 1);
    var m6 := ClaimIt(m5, "v", x, 2);
    var m7 := FailIt(m6, "v", x, a, 2);
    var m8 := ClaimIt(m7, "w", x, 2);
    var m9 := FailIt(m8, "w", x, a, 2);
    var more := SharedMessageMiscounted(m9, "v", "w", x, a);
    moves := m9 + more;
    ClaimsOnlyMore(m9, more, x);
  }

  /** Message `x` is counted exactly whenever no worker has it in hand, over every crash-free run
      whose workers claim only messages among `claimable` from each other. */
  ghost predicate CountsExact(claimable: iset<nat>, x: nat) {
    forall moves :: ExclusiveRun(moves, claimable) ==> Exact(RunMoves(moves), x)
  }

  ghost predicate Exact(sys: System, x: nat) {
    !Held(sys, x) ==> Bounded(sys.store, x)
  }

  /** The exact condition, message by message. */
  lemma CountsExactIffExclusive(claimable: iset<nat>, x: nat)
    ensures CountsExact(claimable, x) <==> x !in claimable
  {
    hide RunMoves, Bounded, Held, ExclusiveRun;
    if x in claimable {
      var moves := OverlapMiscounts(x);
      OnlyIsExclusive(moves, claimable, x);
      assert !Exact(RunMoves(moves), x);
    } else {
      forall moves | ExclusiveRun(moves, claimable) ensures Exact(RunMoves(moves), x) {
        if !Held(RunMoves(moves), x) { RetriesExact(moves, claimable, x); }
      }
    }
  }
}
