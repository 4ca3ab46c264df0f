/** Whole calls of `handle_batch`: what the per-message fallback commits, and why redelivery
    of failing messages comes to an end. */
module Retries {
  import opened Tables
  import opened Events
  import opened Ingest
  import opened DbInvariants
  import opened StreamWorker
  import opened Consumer

  // --- the fallback ------------------------------------------------------------------------

  /** The store after the fallback on `ids`, one message after the other. */
  function Tried(s: Store, ids: seq<nat>, e: Env): Store {
    if ids == [] then s
    else TriedAlone(Tried(s, ids[..|ids| - 1], e), ids[|ids| - 1], e)
  }

  lemma {:induction false} TriedFirst(s: Store, ids: seq<nat>, e: Env)
    requires ids != []
    ensures Tried(s, ids, e) == Tried(TriedAlone(s, ids[0], e), ids[1..], e)
  {
    hide TriedAlone;
    if |ids| == 1 {
      assert ids[..0] == [] && ids[1..] == [];
    } else {
      var init := ids[..|ids| - 1];
      TriedFirst(s, init, e);
      assert init[1..] == ids[1..][..|ids| - 2];
    }
  }

  lemma {:induction false} DriveTries(s: Store, ids: seq<nat>, e: Env)
    ensures Drive(s, Alone(ids), e) == Tried(s, ids, e)
    decreases |ids|
  {
    hide Drive, TriedAlone;
    DriveAlone(s, ids, e);
    if ids == [] {
      assert Tried(s, [], e) == s;
    } else {
      TriedFirst(s, ids, e);
      DriveTries(TriedAlone(s, ids[0], e), ids[1..], e);
    }
  }

  /** The i-th message's own transaction commits when its turn comes. */
  predicate Succeeds(s: Store, ids: seq<nat>, i: nat, e: Env)
    requires i < |ids|
  {
    Transact(Tried(s, ids[..i], e), [ids[i]], e.alone(ids[i])).Some?
  }

  /** The transactions of the messages that succeed alone, in order. */
  function CommitsAlone(s: Store, ids: seq<nat>, e: Env): seq<Commit> {
    if ids == [] then []
    else
      var n := |ids| - 1;
      var a := e.alone(ids[n]);
      CommitsAlone(s, ids[..n], e) +
      if Succeeds(s, ids, n, e) then [Commit([ids[n]], EventsAt(s, [ids[n]]), a.now, a.prices)] else []
  }

  lemma {:induction false} TriedKeepsStream(s: Store, ids: seq<nat>, e: Env)
    ensures Tried(s, ids, e).stream == s.stream && Tried(s, ids, e).delivered == s.delivered
  {
    hide ApplyEvents;
    if ids != [] {
      TriedKeepsStream(s, ids[..|ids| - 1], e);
    }
  }

  lemma {:induction false} ActionsConcat(xs: seq<Commit>, ys: seq<Commit>)
    ensures ActionsOf(xs + ys) == ActionsOf(xs) + ActionsOf(ys)
  {
    if ys == [] {
      assert xs + ys == xs;
    } else {
      var init := ys[..|ys| - 1];
      assert (xs + ys)[..|xs + ys| - 1] == xs + init;
      ActionsConcat(xs, init);
    }
  }

  lemma {:induction false} SameEvents(s: Store, t: Store, ids: seq<nat>)
    requires s.stream == t.stream
    ensures EventsAt(s, ids) == EventsAt(t, ids)
  {
    if ids != [] {
      SameEvents(s, t, ids[..|ids| - 1]);
    }
  }

  /** One message's turn, as history and tables see it. */
  lemma TurnCommits(s: Store, id: nat, e: Env)
    ensures var t, a := TriedAlone(s, id, e), e.alone(id);
            var r := Transact(s, [id], a);
            && t.history == (if r.Some? then s.history + [Commit([id], EventsAt(s, [id]), a.now, a.prices)] else s.history)
            && t.db == (if r.Some? then Act(s.db, Action.Batch(EventsAt(s, [id]), a.now, a.prices, false)) else s.db)
  {
    hide ApplyEvents, EventsAt;
  }

  lemma RunSnoc(db: Db, actions: seq<Action>, a: Action)
    ensures RunActions(db, actions + [a]) == Act(RunActions(db, actions), a)
  {
    assert (actions + [a])[..|actions|] == actions;
  }

  /** The fallback commits exactly the messages that succeed alone, each in its turn, and the
      tables are the fold of their events. */
  lemma {:induction false} FallbackIsFold(s: Store, ids: seq<nat>, e: Env)
    ensures Tried(s, ids, e).history == s.history + CommitsAlone(s, ids, e)
    ensures Tried(s, ids, e).db == RunActions(s.db, ActionsOf(CommitsAlone(s, ids, e)))
  {
    hide TriedAlone, Transact, Act, RunActions, ActionsOf;
    if ids == [] {
      assert s.history + [] == s.history;
      NoActions(s.db);
    } else {
      var n := |ids| - 1;
      var id, before := ids[n], Tried(s, ids[..n], e);
      FallbackIsFold(s, ids[..n], e);
      TriedKeepsStream(s, ids[..n], e);
      SameEvents(s, before, [id]);
      TurnCommits(before, id, e);
      if Succeeds(s, ids, n, e) {
        var a := e.alone(id);
        var c := Commit([id], EventsAt(s, [id]), a.now, a.prices);
        ActionsSnoc(CommitsAlone(s, ids[..n], e), c);
        RunSnoc(s.db, ActionsOf(CommitsAlone(s, ids[..n], e)), Action.Batch(c.events, c.now, c.prices, false));
      } else {
        assert CommitsAlone(s, ids[..n], e) + [] == CommitsAlone(s, ids[..n], e);
      }
    }
  }

  lemma NoActions(db: Db)
    ensures RunActions(db, ActionsOf([])) == db
  {
  }

  // --- message by message ---------------------------------------------------------------------

  predicate Settled(t: Store, id: nat) {
    id in t.acked && id !in t.pending && id !in t.retries
  }

  predicate Dead(t: Store, id: nat) {
    id in t.dlq + t.dlqLost
  }

  /** Nothing about message `x` changed. */
  predicate Same(s: Store, t: Store, x: nat) {
    && s.stream == t.stream && s.delivered == t.delivered
    && (x in s.pending <==> x in t.pending) && (x in s.acked <==> x in t.acked)
    && (x in s.retries <==> x in t.retries) && Count(s.retries, x) == Count(t.retries, x)
    && Count(s.failures, x) == Count(t.failures, x) && (Dead(s, x) <==> Dead(t, x))
  }

  /** The message's event was committed. */
  predicate Committed(s: Store, t: Store, id: nat) {
    Settled(t, id) && Count(t.failures, id) == Count(s.failures, id) && (Dead(t, id) <==> Dead(s, id))
  }

  /** The message failed alone once more: dead at MAX_RETRIES, else left pending. */
  predicate FailedOnce(s: Store, t: Store, id: nat) {
    && Count(t.failures, id) == Count(s.failures, id) + 1
    && (if Count(s.retries, id) + 1 >= MAX_RETRIES then Settled(t, id) && Dead(t, id)
        else
          && id in t.pending && Count(t.retries, id) == Count(s.retries, id) + 1
          && (id in t.acked <==> id in s.acked) && (Dead(t, id) <==> Dead(s, id)))
  }

  lemma TurnOf(s: Store, id: nat, e: Env)
    requires id in s.pending
    ensures var t := TriedAlone(s, id, e);
            if Transact(s, [id], e.alone(id)).Some? then Committed(s, t, id) else FailedOnce(s, t, id)
  {
    hide ApplyEvents, EventsAt;
  }

  lemma TurnOfOther(s: Store, id: nat, e: Env, x: nat)
    requires x != id
    ensures Same(s, TriedAlone(s, id, e), x)
  {
    hide ApplyEvents, EventsAt;
  }

  lemma {:induction false} TriedOthers(s: Store, ids: seq<nat>, e: Env, x: nat)
    requires x !in ids
    ensures Same(s, Tried(s, ids, e), x)
  {
    hide TriedAlone;
    if ids != [] {
      var n := |ids| - 1;
      TriedOthers(s, ids[..n], e, x);
      TurnOfOther(Tried(s, ids[..n], e), ids[n], e, x);
    }
  }

  /** In the fallback each message is acked once its event is committed, and is otherwise
      counted as failed once more. */
  lemma {:induction false} EachTried(s: Store, ids: seq<nat>, e: Env, i: nat)
    requires Distinct(ids) && i < |ids| && ids[i] in s.pending
    ensures var t := Tried(s, ids, e);
            if Succeeds(s, ids, i, e) then Committed(s, t, ids[i]) else FailedOnce(s, t, ids[i])
  {
    hide TriedAlone, Transact;
    var n := |ids| - 1;
    var before := Tried(s, ids[..n], e);
    if i == n {
      TriedOthers(s, ids[..n], e, ids[n]);
      TurnOf(before, ids[n], e);
    } else {
      EachTried(s, ids[..n], e, i);
      assert ids[..n][..i] == ids[..i];
      TurnOfOther(before, ids[n], e, ids[i]);
    }
  }

  // --- whole calls ------------------------------------------------------------------------------

  /** The dead letters of the unparseable messages. */
  function Letters(s: Store, poison: seq<nat>, e: Env): Store {
    if poison == [] then s
    else
      var id := poison[|poison| - 1];
      Parked(Letters(s, poison[..|poison| - 1], e), id, e.letter(id))
  }

  lemma {:induction false} LettersFirst(s: Store, poison: seq<nat>, e: Env)
    requires poison != []
    ensures Letters(s, poison, e) == Letters(Parked(s, poison[0], e.letter(poison[0])), poison[1..], e)
  {
    hide Parked;
    if |poison| == 1 {
      assert poison[..0] == [] && poison[1..] == [];
    } else {
      var init := poison[..|poison| - 1];
      LettersFirst(s, init, e);
      assert init[1..] == poison[1..][..|poison| - 2];
    }
  }

  lemma {:induction false} DriveLetters(s: Store, poison: seq<nat>, parsed: seq<nat>, e: Env)
    ensures Drive(s, Parking(poison, parsed), e) ==
            if parsed == [] then Letters(s, poison, e) else Drive(Letters(s, poison, e), Phase.Batch(parsed), e)
    decreases |poison|
  {
    hide Drive, Parked;
    DriveParking(s, poison, parsed, e);
    if poison == [] {
      assert Letters(s, [], e) == s;
    } else {
      LettersFirst(s, poison, e);
      DriveLetters(Parked(s, poison[0], e.letter(poison[0])), poison[1..], parsed, e);
    }
  }

  lemma {:induction false} LettersOthers(s: Store, poison: seq<nat>, e: Env, x: nat)
    requires x !in poison
    ensures Same(s, Letters(s, poison, e), x)
  {
    if poison != [] {
      assert poison == poison[..|poison| - 1] + [poison[|poison| - 1]];
      LettersOthers(s, poison[..|poison| - 1], e, x);
    }
  }

  /** Dead-lettered without having failed alone. */
  predicate Unread(s: Store, t: Store, id: nat) {
    Settled(t, id) && Dead(t, id) && Count(t.failures, id) == Count(s.failures, id)
  }

  lemma {:induction false} EachLetter(s: Store, poison: seq<nat>, e: Env, x: nat)
    requires Distinct(poison) && x in poison && x in s.pending
    ensures Unread(s, Letters(s, poison, e), x)
  {
    var init, last := poison[..|poison| - 1], poison[|poison| - 1];
    assert poison == init + [last];
    if x == last {
      LettersOthers(s, init, e, x);
    } else {
      EachLetter(s, init, e, x);
    }
  }

  lemma {:induction false} SiftDistinct(s: Store, ids: seq<nat>, parsed: bool)
    requires Distinct(ids)
    ensures Distinct(Sift(s, ids, parsed))
  {
    if ids != [] {
      var init, last := ids[..|ids| - 1], ids[|ids| - 1];
      SiftDistinct(s, init, parsed);
      InSift(s, init, parsed, last);
    }
  }

  lemma BatchOthers(s: Store, ids: seq<nat>, e: Env, x: nat)
    requires x !in ids
    ensures Same(s, Drive(s, Phase.Batch(ids), e), x)
  {
    hide Drive, ApplyEvents, EventsAt;
    DriveBatch(s, ids, e);
    DriveTries(s, ids, e);
    TriedOthers(s, ids, e, x);
  }

  lemma EachInBatch(s: Store, ids: seq<nat>, e: Env, x: nat)
    requires Distinct(ids) && x in ids && x in s.pending
    ensures var t := Drive(s, Phase.Batch(ids), e); Committed(s, t, x) || FailedOnce(s, t, x)
  {
    hide Drive, ApplyEvents, EventsAt;
    DriveBatch(s, ids, e);
    if Transact(s, ids, e.batch).None? {
      DriveTries(s, ids, e);
      var i :| 0 <= i < |ids| && ids[i] == x;
      EachTried(s, ids, e, i);
    }
  }

  /** A call changes nothing about messages it was not given. */
  lemma OthersHandled(s: Store, ids: seq<nat>, e: Env, x: nat)
    requires x !in ids
    ensures Same(s, Handled(s, ids, e), x)
  {
    hide Drive;
    var poison, parsed := Sift(s, ids, false), Sift(s, ids, true);
    InSift(s, ids, false, x);
    InSift(s, ids, true, x);
    DriveLetters(s, poison, parsed, e);
    LettersOthers(s, poison, e, x);
    BatchOthers(Letters(s, poison, e), parsed, e, x);
  }

  /** What a call does with each message it is given. */
  lemma EachHandled(s: Store, ids: seq<nat>, e: Env, x: nat)
    requires Distinct(ids) && x in ids && x in s.pending && x < |s.stream|
    ensures var t := Handled(s, ids, e);
            if s.stream[x].Unparseable? then Unread(s, t, x) else Committed(s, t, x) || FailedOnce(s, t, x)
  {
    hide Drive;
    var poison, parsed := Sift(s, ids, false), Sift(s, ids, true);
    InSift(s, ids, false, x);
    InSift(s, ids, true, x);
    SiftDistinct(s, ids, false);
    SiftDistinct(s, ids, true);
    DriveLetters(s, poison, parsed, e);
    var after := Letters(s, poison, e);
    if s.stream[x].Unparseable? {
      EachLetter(s, poison, e, x);
      BatchOthers(after, parsed, e, x);
    } else {
      LettersOthers(s, poison, e, x);
      EachInBatch(after, parsed, e, x);
    }
  }

  lemma {:induction false} DriveKept(s: Store, p: Phase, e: Env)
    requires Kept(s) && Sound(s, p)
    ensures Kept(Drive(s, p, e)) && Grows(s, Drive(s, p, e))
    decreases Rank(p)
  {
    hide Kept, Sound, Step, Grows;
    if p == Idle {
      KeptFacts(s);
    } else {
      var a := AttemptAt(p, e);
      StepKept(s, p, a);
      StepSound(s, p, a);
      StepGrows(s, p, a);
      StepRanks(s, p, a);
      DriveKept(Step(s, p, a).0, Step(s, p, a).1, e);
      GrowsOn(s, Step(s, p, a).0, Drive(s, p, e));
    }
  }

  lemma GrowsOn(s: Store, t: Store, u: Store)
    requires Grows(s, t) && Grows(t, u)
    ensures Grows(s, u)
  {
  }

  // --- redelivery ends -----------------------------------------------------------------------------

  /** Without crashes: the retry hash counts a pending message's failures exactly, fewer than
      MAX_RETRIES; an acked one has no count left, and was dead-lettered exactly if it cannot
      be parsed or failed MAX_RETRIES times. */
  predicate Bounded(s: Store, x: nat) {
    && (x in s.pending ==> Count(s.retries, x) == Count(s.failures, x) < MAX_RETRIES && !Dead(s, x))
    && (x in s.acked ==> x !in s.retries && Count(s.failures, x) <= MAX_RETRIES &&
                         (Dead(s, x) <==> !IsParsed(s, x) || Count(s.failures, x) == MAX_RETRIES))
    && (x >= s.delivered ==> x !in s.retries && Count(s.failures, x) == 0 && !Dead(s, x))
  }

  ghost predicate AllBounded(s: Store) {
    Kept(s) && forall x: nat :: Bounded(s, x)
  }

  /** `handle_batch` calls that no crash interrupts, one at a time. */
  datatype Call =
    | Arrives(payload: Payload)
    | First(n: nat, e: Env)            // XREADGROUP, then handle_batch
    | Again(ids: seq<nat>, e: Env)     // XAUTOCLAIM, then handle_batch

  predicate Claimable(s: Store, ids: seq<nat>) {
    Distinct(ids) && IdSet(ids) <= s.pending
  }

  function Serve(s: Store, c: Call): Store {
    match c
    case Arrives(payload) => s.(stream := s.stream + [payload])
    case First(n, e) => Handled(Delivered(s, Fresh(s, n)), Fresh(s, n), e)
    case Again(ids, e) => if Claimable(s, ids) then Handled(s, ids, e) else s
  }

  function ServeAll(s: Store, calls: seq<Call>): Store {
    if calls == [] then s else Serve(ServeAll(s, calls[..|calls| - 1]), calls[|calls| - 1])
  }

  lemma HandledBounded(s: Store, ids: seq<nat>, e: Env)
    requires AllBounded(s) && Claimable(s, ids)
    ensures AllBounded(Handled(s, ids, e))
  {
    hide Handled, Kept;
    var t := Handled(s, ids, e);
    HandledKept(s, ids, e);
    forall x: nat ensures Bounded(t, x) {
      assert Bounded(s, x);
      if x in ids {
        assert x in IdSet(ids);
        KeptFacts(s);
        EachHandled(s, ids, e, x);
        KeptPlaces(s, x);
      } else {
        OthersHandled(s, ids, e, x);
      }
    }
  }

  lemma KeptPlaces(s: Store, x: nat)
    requires Kept(s) && x in s.pending
    ensures x < s.delivered <= |s.stream| && x !in s.acked
  {
  }

  lemma HandledKept(s: Store, ids: seq<nat>, e: Env)
    requires Kept(s) && Claimable(s, ids)
    ensures var t := Handled(s, ids, e); Kept(t) && t.stream == s.stream && t.delivered == s.delivered
  {
    hide Kept, Drive;
    KeptFacts(s);
    assert forall id :: id in ids ==> id in IdSet(ids);
    StartSound(s, ids);
    DriveKept(s, Start(s, ids), e);
    DriveKeepsStream(s, Start(s, ids), e);
  }

  lemma {:induction false} DriveKeepsStream(s: Store, p: Phase, e: Env)
    ensures Drive(s, p, e).stream == s.stream && Drive(s, p, e).delivered == s.delivered
    decreases Rank(p)
  {
    if p != Idle {
      var a := AttemptAt(p, e);
      StepRanks(s, p, a);
      StepKeepsStream(s, p, a);
      DriveKeepsStream(Step(s, p, a).0, Step(s, p, a).1, e);
    }
  }

  lemma StepKeepsStream(s: Store, p: Phase, a: Attempt)
    ensures Step(s, p, a).0.stream == s.stream && Step(s, p, a).0.delivered == s.delivered
  {
    hide ApplyEvents, EventsAt;
  }

  lemma ServedBounded(s: Store, c: Call)
    requires AllBounded(s)
    ensures AllBounded(Serve(s, c))
  {
    hide Handled, Kept;
    match c
    case Arrives(payload) =>
      ProducedKept(s, payload);
      KeptFacts(s);
      var t := Serve(s, c);
      forall x: nat ensures Bounded(t, x) {
        assert Bounded(s, x);
        if x in s.acked { AckedPlaces(s, x); }
      }
    case First(n, e) =>
      KeptFacts(s);
      var ids := Fresh(s, n);
      var t := Delivered(s, ids);
      DeliveredKept(s, ids);
      forall x: nat ensures Bounded(t, x) {
        assert Bounded(s, x);
        DeliveredAt(s, ids, x);
      }
      assert Distinct(ids);
      HandledBounded(t, ids, e);
    case Again(ids, e) =>
      if Claimable(s, ids) { HandledBounded(s, ids, e); }
  }

  lemma AckedPlaces(s: Store, x: nat)
    requires Kept(s) && x in s.acked
    ensures x < s.delivered <= |s.stream|
  {
  }

  lemma DeliveredAt(s: Store, ids: seq<nat>, x: nat)
    requires Kept(s) && forall i :: 0 <= i < |ids| ==> ids[i] == s.delivered + i
    ensures x in Delivered(s, ids).pending <==> x in s.pending || s.delivered <= x < s.delivered + |ids|
    ensures s.delivered <= x ==> x !in s.acked
  {
    hide RunActions, ActionsOf, CommitFits, InSomeCommit, Hopeless;
    if s.delivered <= x < s.delivered + |ids| {
      assert ids[x - s.delivered] in ids;
    }
  }

  /** In every run of uninterrupted calls, one at a time. Calls of several workers interleaved
      are in `SharedRetries`. */
  lemma {:induction false} RetriesBounded(calls: seq<Call>)
    ensures AllBounded(ServeAll(START.store, calls))
  {
    hide AllBounded, Serve;
    if calls == [] {
      NothingYet();
    } else {
      RetriesBounded(calls[..|calls| - 1]);
      ServedBounded(ServeAll(START.store, calls[..|calls| - 1]), calls[|calls| - 1]);
    }
  }

  lemma NothingYet()
    ensures AllBounded(START.store)
  {
    StartKept();
  }

  /** The attempts a message may still fail. */
  function Left(s: Store, x: nat): nat {
    if x in s.pending && Count(s.retries, x) < MAX_RETRIES then MAX_RETRIES - Count(s.retries, x) else 0
  }

  function Potential(s: Store, n: nat): nat {
    if n == 0 then 0 else Potential(s, n - 1) + Left(s, n - 1)
  }

  lemma {:induction false} PotentialLowers(s: Store, t: Store, n: nat, x: nat)
    requires forall y: nat :: Left(t, y) <= Left(s, y)
    requires Left(t, x) < Left(s, x)
    ensures Potential(t, n) <= Potential(s, n) && (x < n ==> Potential(t, n) < Potential(s, n))
  {
    hide Left;
    if n > 0 {
      PotentialLowers(s, t, n - 1, x);
    }
  }

  lemma {:induction false} PotentialBound(s: Store, n: nat)
    ensures Potential(s, n) <= MAX_RETRIES * n
  {
    if n > 0 {
      PotentialBound(s, n - 1);
    }
  }

  lemma LeftLowers(s: Store, ids: seq<nat>, e: Env, x: nat)
    requires AllBounded(s) && Claimable(s, ids)
    ensures if x in ids then Left(Handled(s, ids, e), x) < Left(s, x) else Left(Handled(s, ids, e), x) == Left(s, x)
  {
    hide Handled, Kept;
    assert Bounded(s, x);
    if x in ids {
      assert x in IdSet(ids);
      KeptPlaces(s, x);
      EachHandled(s, ids, e, x);
    } else {
      OthersHandled(s, ids, e, x);
    }
  }

  /** Handling any pending messages, one or more, uses up attempts. */
  lemma HandlingLowers(s: Store, ids: seq<nat>, e: Env)
    requires AllBounded(s) && Claimable(s, ids) && ids != []
    ensures Potential(Handled(s, ids, e), s.delivered) < Potential(s, s.delivered)
  {
    hide Handled, Kept, Potential, Left;
    var t := Handled(s, ids, e);
    forall y: nat ensures Left(t, y) <= Left(s, y) { LeftLowers(s, ids, e, y); }
    LeftLowers(s, ids, e, ids[0]);
    assert ids[0] in IdSet(ids);
    KeptPlaces(s, ids[0]);
    PotentialLowers(s, t, s.delivered, ids[0]);
  }

  /** Redeliveries of pending messages, none of them empty. */
  ghost predicate Redeliveries(s: Store, calls: seq<Call>) {
    calls == [] ||
    (var n := |calls| - 1;
     var before := ServeAll(s, calls[..n]);
     Redeliveries(s, calls[..n]) && calls[n].Again? && calls[n].ids != [] && Claimable(before, calls[n].ids))
  }

  /** So whatever keeps failing, only finitely many redeliveries can find a pending message. */
  lemma {:induction false} RedeliveriesEnd(s: Store, calls: seq<Call>)
    requires AllBounded(s) && Redeliveries(s, calls)
    ensures AllBounded(ServeAll(s, calls)) && ServeAll(s, calls).delivered == s.delivered
    ensures |calls| <= Potential(s, s.delivered) - Potential(ServeAll(s, calls), s.delivered)
    ensures |calls| <= MAX_RETRIES * s.delivered
  {
    hide AllBounded, Handled, Potential;
    PotentialBound(s, s.delivered);
    if calls != [] {
      var n := |calls| - 1;
      RedeliveriesEnd(s, calls[..n]);
      var before := ServeAll(s, calls[..n]);
      HandledBounded(before, calls[n].ids, calls[n].e);
      HandlingLowers(before, calls[n].ids, calls[n].e);
      assert Kept(before) by { BoundedKept(before); }
      HandledKept(before, calls[n].ids, calls[n].e);
    }
  }

  lemma BoundedKept(s: Store)
    requires AllBounded(s)
    ensures Kept(s)
  {
  }

  // --- a message that is lost without any outage ------------------------------------------------

  lemma DoomedTransact(s: Store, x: nat, a: Attempt)
    requires IsParsed(s, x) && s.stream[x].event.Malformed?
    ensures Transact(s, [x], a).None?
  {
    assert [x][..0] == [] && [x][0] == x;
    assert EventsAt(s, [x]) == [s.stream[x].event];
    assert !Buildable(s.stream[x].event) && s.stream[x].event in EventsAt(s, [x]);
  }

  /** One delivery of a message that can never be applied. */
  lemma DoomedHandled(s: Store, x: nat, e: Env)
    requires IsParsed(s, x) && s.stream[x].event.Malformed?
    ensures Handled(s, [x], e) ==
            if Count(s.retries, x) + 1 >= MAX_RETRIES then Parked(Missed(s, x), x, e.letter(x)) else Missed(s, x)
  {
    hide Drive, Transact, Parked;
    assert [x][..0] == [] && [x][0] == x;
    assert Sift(s, [x], true) == [x] && Sift(s, [x], false) == [];
    DriveLetters(s, [], [x], e);
    assert Letters(s, [], e) == s;
    DoomedTransact(s, x, e.batch);
    DriveBatch(s, [x], e);
    DriveTries(s, [x], e);
    DoomedTransact(s, x, e.alone(x));
    assert Tried(s, [x], e) == TriedAlone(Tried(s, [], e), x, e);
  }

  /** JSON that is no object, say: parsed, never applied, and its dead letter never written.
      After MAX_RETRIES deliveries it is acked and lost, with no outage anywhere. */
  lemma UnrecordableLost(e: Env)
    ensures var calls := [Arrives(Parsed(Malformed, false)), First(1, e), Again([0], e), Again([0], e)];
            var s := ServeAll(START.store, calls);
            0 in s.acked && Lost(s, 0)
  {
    hide Handled, ServeAll, Drive;
    var arrived := Serve(START.store, Arrives(Parsed(Malformed, false)));
    var ids := Fresh(arrived, 1);
    assert ids == [0];
    var s0 := Delivered(arrived, [0]);
    assert [0][0] == 0;
    DoomedHandled(s0, 0, e);
    var s1 := Missed(s0, 0);
    DoomedHandled(s1, 0, e);
    var s2 := Missed(s1, 0);
    DoomedHandled(s2, 0, e);
    var calls := [Arrives(Parsed(Malformed, false))] + [First(1, e)] + [Again([0], e)] + [Again([0], e)];
    ServeSnoc(START.store, [], Arrives(Parsed(Malformed, false)));
    assert ServeAll(START.store, []) == START.store by { ServeNone(START.store); }
    assert [] + [Arrives(Parsed(Malformed, false))] == [Arrives(Parsed(Malformed, false))];
    ServeSnoc(START.store, [Arrives(Parsed(Malformed, false))], First(1, e));
    ServeSnoc(START.store, [Arrives(Parsed(Malformed, false))] + [First(1, e)], Again([0], e));
    ServeSnoc(START.store, [Arrives(Parsed(Malformed, false))] + [First(1, e)] + [Again([0], e)], Again([0], e));
    assert calls == [Arrives(Parsed(Malformed, false)), First(1, e), Again([0], e), Again([0], e)];
  }

  lemma ServeSnoc(s: Store, calls: seq<Call>, c: Call)
    ensures ServeAll(s, calls + [c]) == Serve(ServeAll(s, calls), c)
  {
    assert (calls + [c])[..|calls|] == calls;
  }

  lemma ServeNone(s: Store)
    ensures ServeAll(s, []) == s
  {
  }
}
