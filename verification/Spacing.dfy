/** How far apart the settle checks of one trace are: what a deferral and an announcement are
    worth in time. */
module Spacing {
  import opened Tables
  import opened LastWrites
  import opened Settling

  function TimeOf(x: Move): Option<int> {
    match x
    case Announce(_, now) => Some(now)
    case AnnounceElsewhere(_, now) => Some(now)
    case Drain(now, _) => Some(now)
    case Work(now, _) => Some(now)
    case Write(_) => None
    case Crash => None
  }

  /** The clock never goes back. */
  ghost predicate Rising(moves: seq<Move>) {
    forall i, j :: 0 <= i < j < |moves| && TimeOf(moves[i]).Some? && TimeOf(moves[j]).Some? ==>
      TimeOf(moves[i]).value <= TimeOf(moves[j]).value
  }

  /** No reading of the clock was later than `clock`. */
  ghost predicate ReadBy(moves: seq<Move>, clock: int) {
    forall i :: 0 <= i < |moves| && TimeOf(moves[i]).Some? ==> TimeOf(moves[i]).value <= clock
  }

  ghost predicate NoCrash(moves: seq<Move>) {
    forall i :: 0 <= i < |moves| ==> !moves[i].Crash?
  }

  predicate ChecksNow(s: State, x: Move, m: Key) {
    IsCheck(s, x) && s.phase.member == m
  }

  // --- one deferral ------------------------------------------------------------------------------

  /** A check that is put off, at whatever time the clock then shows, is due again exactly
      SETTLE_SECONDS later, and no other check moves. */
  lemma PutOffUntil(moves: seq<Move>, x: Move)
    requires x.Work? && Run(moves).phase.Bounced? && Run(moves).phase.count <= MAX_BOUNCES
    ensures var s, t, m := Run(moves), Run(moves + [x]), Run(moves).phase.member;
            && t.q.log == s.q.log + [Deferred(m)] && t.q.due.Keys == s.q.due.Keys + {m}
            && t.q.due[m] == x.now + SETTLE_SECONDS
            && (forall k :: k in s.q.due && k != m ==> t.q.due[k] == s.q.due[k])
            && t.q.bounces == s.q.bounces && t.phase == Draining(s.phase.at, s.phase.todo)
  {
    hide Run;
    RunSnoc(moves, x);
  }

  // --- two checks ------------------------------------------------------------------------------------

  /** When the drain began. */
  function DrainedAt(p: Phase): int
    requires !p.Idle?
  {
    p.at
  }

  predicate Finishing(p: Phase, m: Key) {
    (p.Evaluated? || p.Removed?) && p.member == m
  }

  /** The member's next check is at `until` or later. */
  predicate NotBefore(s: State, m: Key, until: int) {
    && m in s.q.due && s.q.due[m] >= until && !Finishing(s.phase, m)
    && (m in Pending(s.phase) ==> !s.phase.Idle? && DrainedAt(s.phase) >= until)
  }

  ghost predicate CompletedSince(log: seq<Note>, m: Key, base: nat) {
    exists n :: base <= n < |log| && log[n] == Completed(m)
  }

  /** The member is leased until `lease` or longer. */
  predicate DueBy(s: State, m: Key, lease: int) {
    m in s.q.due && s.q.due[m] >= lease
  }

  /** Since a check by which the member was leased until `lease`: an evaluation completed, or the
      check's outcome is still being dealt with, or the member waits for `until`. */
  ghost predicate Waits(s: State, m: Key, until: int, lease: int, base: nat) {
    || CompletedSince(s.q.log, m, base)
    || ((s.phase.Bounced? || s.phase.Evaluating?) && s.phase.member == m && DueBy(s, m, lease))
    || NotBefore(s, m, until)
  }

  /** The move ends the handling of a check of `m` before it is put off or its evaluation completes. */
  predicate Interrupts(s: State, x: Move, m: Key) {
    && (s.phase.Bounced? || s.phase.Evaluating?) && s.phase.member == m
    && (x.Crash? || (x.Work? && s.phase.Evaluating? && !x.ok))
  }

  ghost predicate Interrupted(moves: seq<Move>, i: nat, j: nat, m: Key) {
    exists k :: i < k < j && k < |moves| && Interrupts(Run(moves[..k]), moves[k], m)
  }

  /** A drain works through distinct members and began no later than now. */
  predicate Orderly(p: Phase, clock: int) {
    Distinct(Pending(p)) && (!p.Idle? ==> DrainedAt(p) <= clock)
  }

  lemma RestDistinct(m: Key, todo: seq<Key>)
    requires Distinct([m] + todo)
    ensures Distinct(todo) && m !in todo
  {
    var all := [m] + todo;
    forall i, j | 0 <= i < j < |todo| ensures todo[i] != todo[j] {
      assert all[i + 1] == todo[i] && all[j + 1] == todo[j];
    }
    forall i | 0 <= i < |todo| ensures todo[i] != m {
      assert all[0] == m && all[i + 1] == todo[i];
    }
  }

  lemma FirstOf(todo: seq<Key>)
    requires todo != []
    ensures [todo[0]] + todo[1..] == todo
  {
  }

  lemma NextOrderly(s: State, x: Move, clock: int)
    requires Orderly(s.phase, clock) && (TimeOf(x).Some? ==> TimeOf(x).value >= clock)
    ensures Orderly(Next(s, x).phase, if TimeOf(x).Some? then TimeOf(x).value else clock)
  {
    hide BounceKey, LastWrite, IsSettled;
    if x.Work? {
      var p := s.phase;
      if p.Draining? && p.todo != [] { FirstOf(p.todo); }
      if !p.Idle? && !p.Draining? { RestDistinct(p.member, p.todo); }
    }
  }

  lemma StepWaits(s: State, x: Move, m: Key, until: int, lease: int, base: nat, clock: int)
    requires Waits(s, m, until, lease, base) && Orderly(s.phase, clock) && base <= |s.q.log|
    requires x.Work? && (Interrupts(s, x, m) ==> until <= lease) && until <= x.now + SETTLE_SECONDS
    ensures Waits(Next(s, x), m, until, lease, base)
  {
    hide BounceKey, LastWrite, IsSettled, CompletedSince;
    var p, t := s.phase, Next(s, x);
    if CompletedSince(s.q.log, m, base) {
      StillCompleted(s, x, m, base);
    } else {
      if !p.Idle? && !p.Draining? { RestDistinct(p.member, p.todo); }
      if p.Draining? && p.todo != [] { FirstOf(p.todo); }
      if p.Evaluating? && p.member == m && x.ok {
        assert t.q.log[|s.q.log|] == Completed(m);
        NowCompleted(t.q.log, m, base, |s.q.log|);
      }
    }
  }

  lemma NowCompleted(log: seq<Note>, m: Key, base: nat, n: nat)
    requires base <= n < |log| && log[n] == Completed(m)
    ensures CompletedSince(log, m, base)
  {
  }

  lemma StillCompleted(s: State, x: Move, m: Key, base: nat)
    requires CompletedSince(s.q.log, m, base)
    ensures CompletedSince(Next(s, x).q.log, m, base)
  {
    hide Next;
    LogGrows(s, x);
    var n :| base <= n < |s.q.log| && s.q.log[n] == Completed(m);
    assert Next(s, x).q.log[n] == Completed(m);
  }

  lemma NextWaits(s: State, x: Move, m: Key, until: int, lease: int, base: nat, clock: int)
    requires Waits(s, m, until, lease, base) && Orderly(s.phase, clock) && base <= |s.q.log|
    requires Interrupts(s, x, m) ==> until <= lease
    requires TimeOf(x).Some? ==> TimeOf(x).value >= clock && until <= TimeOf(x).value + SETTLE_SECONDS
    ensures Waits(Next(s, x), m, until, lease, base)
  {
    hide BounceKey, LastWrite, IsSettled, CompletedSince, Step;
    if CompletedSince(s.q.log, m, base) {
      StillCompleted(s, x, m, base);
    } else if x.Work? {
      StepWaits(s, x, m, until, lease, base, clock);
    }
  }

  /** The check just made begins the wait. */
  lemma CheckWaits(s: State, x: Move, m: Key, until: int)
    requires ChecksNow(s, x, m) && Leases(s)
    ensures Waits(Next(s, x), m, until, s.phase.at + CLAIM_LEASE_SECONDS, |s.q.log|)
  {
    hide BounceKey, LastWrite, IsSettled;
  }

  /** What is left of a drain is due, and the member worked on is leased. */
  predicate Leases(s: State) {
    && Distinct(Pending(s.phase)) && (forall k :: k in Pending(s.phase) && !Finishing(s.phase, k) ==> k in s.q.due)
    && (s.phase.Checking? || s.phase.Bounced? || s.phase.Evaluating? ==>
          DueBy(s, s.phase.member, s.phase.at + CLAIM_LEASE_SECONDS))
  }

  lemma NextLeases(s: State, x: Move)
    requires Leases(s)
    ensures Leases(Next(s, x))
  {
    hide BounceKey, LastWrite, IsSettled;
    if x.Work? {
      var p := s.phase;
      if p.Draining? && p.todo != [] {
        FirstOf(p.todo);
        RestDistinct(p.todo[0], p.todo[1..]);
      }
      if !p.Idle? && !p.Draining? { RestDistinct(p.member, p.todo); }
    }
  }

  lemma {:induction false} RunLeases(moves: seq<Move>)
    ensures Leases(Run(moves))
  {
    if moves != [] {
      hide Next, Leases;
      RunLeases(moves[..|moves| - 1]);
      NextLeases(Run(moves[..|moves| - 1]), moves[|moves| - 1]);
    }
  }

  lemma {:induction false} RunOrderly(moves: seq<Move>, clock: int)
    requires Rising(moves) && ReadBy(moves, clock)
    ensures Orderly(Run(moves).phase, clock)
  {
    hide Next, Orderly;
    if moves == [] {
      StartOrderly(clock);
    } else {
      var n := |moves| - 1;
      var before, x := moves[..n], moves[n];
      forall i | 0 <= i < n ensures before[i] == moves[i] {}
      if TimeOf(x).Some? {
        RunOrderly(before, TimeOf(x).value);
        NextOrderly(Run(before), x, TimeOf(x).value);
        LaterOrderly(Run(moves).phase, TimeOf(x).value, clock);
      } else {
        RunOrderly(before, clock);
        NextOrderly(Run(before), x, clock);
      }
    }
  }

  lemma StartOrderly(clock: int)
    ensures Orderly(START.phase, clock)
  {
  }

  lemma LaterOrderly(p: Phase, clock: int, later: int)
    requires Orderly(p, clock) && clock <= later
    ensures Orderly(p, later)
  {
  }

  lemma {:induction false} RunWaits(moves: seq<Move>, i: nat, m: Key, k: nat, until: int)
    requires i < k <= |moves| && Rising(moves) && ChecksNow(Run(moves[..i]), moves[i], m)
    requires until <= moves[i].now + SETTLE_SECONDS
    requires Interrupted(moves, i, k, m) ==> until <= Run(moves[..i]).phase.at + CLAIM_LEASE_SECONDS
    ensures |Run(moves[..i]).q.log| <= |Run(moves[..k]).q.log|
    ensures Waits(Run(moves[..k]), m, until, Run(moves[..i]).phase.at + CLAIM_LEASE_SECONDS, |Run(moves[..i]).q.log|)
  {
    hide Run, Next, Waits, Orderly, Leases;
    var lease, base := Run(moves[..i]).phase.at + CLAIM_LEASE_SECONDS, |Run(moves[..i]).q.log|;
    var before, x := moves[..k - 1], moves[k - 1];
    assert moves[..k] == before + [x];
    RunSnoc(before, x);
    LogGrows(Run(before), x);
    if k == i + 1 {
      RunLeases(before);
      CheckWaits(Run(before), x, m, until);
    } else {
      RunWaits(moves, i, m, k - 1, until);
      forall j | 0 <= j < k - 1 ensures before[j] == moves[j] {}
      assert TimeOf(moves[i]).Some?;
      var clock := LastRead(moves, i, k - 1);
      RunOrderly(before, clock);
      NextWaits(Run(before), x, m, until, lease, base, clock);
    }
  }

  /** The latest reading before move `k`. */
  lemma {:induction false} LastRead(moves: seq<Move>, i: nat, k: nat) returns (clock: int)
    requires i < k <= |moves| && Rising(moves) && TimeOf(moves[i]).Some?
    ensures TimeOf(moves[i]).value <= clock && ReadBy(moves[..k], clock)
    ensures forall j :: k <= j < |moves| && TimeOf(moves[j]).Some? ==> clock <= TimeOf(moves[j]).value
  {
    if TimeOf(moves[k - 1]).Some? {
      clock := TimeOf(moves[k - 1]).value;
    } else {
      clock := LastRead(moves, i, k - 1);
      assert moves[..k] == moves[..k - 1] + [moves[k - 1]];
    }
  }

  /** Two settle checks of a trace between which no evaluation of it completes are SETTLE_SECONDS
      apart or more, whoever announces it meanwhile; unless in between a crash or an exception cut
      the first one's handling short, and then the second follows when the lease that the first was
      made under has ended. */
  lemma ChecksSpaced(moves: seq<Move>, i: nat, j: nat, m: Key)
    requires i < j < |moves| && Rising(moves)
    requires ChecksNow(Run(moves[..i]), moves[i], m) && ChecksNow(Run(moves[..j]), moves[j], m)
    requires !CompletedSince(Run(moves[..j]).q.log, m, |Run(moves[..i]).q.log|)
    ensures || moves[j].now >= moves[i].now + SETTLE_SECONDS
            || (Interrupted(moves, i, j, m) && moves[j].now >= Run(moves[..i]).phase.at + CLAIM_LEASE_SECONDS)
  {
    hide Run, CompletedSince, Interrupted;
    var lease := Run(moves[..i]).phase.at + CLAIM_LEASE_SECONDS;
    var until := moves[i].now + SETTLE_SECONDS;
    if Interrupted(moves, i, j, m) && lease < until { until := lease; }
    RunWaits(moves, i, m, j, until);
    var clock := LastRead(moves, i, j);
    forall k | 0 <= k < j ensures moves[..j][k] == moves[k] {}
    RunOrderly(moves[..j], clock);
  }

  /** Three moves of the worker in a row. */
  lemma RunThrice(moves: seq<Move>, x: Move, y: Move, z: Move)
    ensures Run(moves + [x] + [y] + [z]) == Next(Next(Next(Run(moves), x), y), z)
  {
    RunSnoc(moves, x);
    RunSnoc(moves + [x], y);
    RunSnoc(moves + [x] + [y], z);
  }

  /** Traces `a` and `b`, neither with a row, are due; the worker leases, checks and evaluates `a`,
      which takes 200 seconds, and forgets it. */
  function LongRun(a: Key, b: Key): seq<Move> {
    [Announce(a, 0), Announce(b, 0), Drain(5, [a, b]), Work(5, true), Work(5, true), Work(200, true), Work(200, true),
     Work(200, true)]
  }

  lemma LongRises(a: Key, b: Key)
    ensures ReadBy(LongRun(a, b), 200) && Rising(LongRun(a, b)) && NoCrash(LongRun(a, b))
  {
  }

  lemma LongEvaluation(a: Key, b: Key) returns (moves: seq<Move>)
    requires a != b && Usable(a) && Usable(b)
    ensures Run(moves).phase == Draining(5, [b]) && Run(moves).db == START.db
    ensures b in Run(moves).q.due && Run(moves).q.due[b] == 5
    ensures ReadBy(moves, 200) && Rising(moves) && NoCrash(moves)
  {
    hide Run, LastWrite, IsSettled, BounceKey, Rising, ReadBy, NoCrash;
    NoMoves();
    RunThrice([], Announce(a, 0), Announce(b, 0), Drain(5, [a, b]));
    var m3 := [] + [Announce(a, 0)] + [Announce(b, 0)] + [Drain(5, [a, b])];
    assert Run(m3).phase == Draining(5, [a, b]);
    AbsentTraceSettled(START.db, a, 5);
    RunThrice(m3, Work(5, true), Work(5, true), Work(200, true));
    var m6 := m3 + [Work(5, true)] + [Work(5, true)] + [Work(200, true)];
    assert [a, b][1..] == [b];
    RunSnoc(m6, Work(200, true));
    RunSnoc(m6 + [Work(200, true)], Work(200, true));
    moves := m6 + [Work(200, true)] + [Work(200, true)];
    assert moves == LongRun(a, b);
    LongRises(a, b);
  }

  /** The lease may have ended before the first check: it was taken when the drain began. So after an
      evaluation that raises the next check may follow at once. */
  lemma RaisedCheckedAtOnce(a: Key, b: Key) returns (moves: seq<Move>, i: nat)
    requires a != b && Usable(a) && Usable(b)
    ensures i < |moves| && Rising(moves + [Work(200, true)]) && NoCrash(moves)
    ensures ChecksNow(Run(moves[..i]), moves[i], b) && moves[i].now == 200
    ensures ChecksNow(Run(moves), Work(200, true), b)
    ensures !CompletedSince(Run(moves).q.log, b, |Run(moves[..i]).q.log|)
  {
    hide Run, LastWrite, IsSettled, Rising;
    var before := LongEvaluation(a, b);
    AbsentTraceSettled(START.db, b, 200);
    RunThrice(before, Work(200, true), Work(200, true), Work(200, false));
    var raised := before + [Work(200, true)] + [Work(200, true)] + [Work(200, false)];
    RunSnoc(raised, Drain(200, [b]));
    RunSnoc(raised + [Drain(200, [b])], Work(200, true));
    moves := raised + [Drain(200, [b])] + [Work(200, true)];
    i := |before| + 1;
    RunSnoc(before, Work(200, true));
    assert moves[..i] == before + [Work(200, true)] && moves[i] == Work(200, true);
    StillRising(before, [Work(200, true), Work(200, true), Work(200, false), Drain(200, [b]), Work(200, true), Work(200, true)]);
    assert moves + [Work(200, true)] ==
           before + [Work(200, true), Work(200, true), Work(200, false), Drain(200, [b]), Work(200, true), Work(200, true)];
  }

  lemma StillRising(before: seq<Move>, more: seq<Move>)
    requires Rising(before) && ReadBy(before, 200)
    requires forall i :: 0 <= i < |more| ==> TimeOf(more[i]) == Some(200)
    ensures Rising(before + more)
  {
  }

  // --- an evaluation over the cap -----------------------------------------------------------------------

  /** When a check first failed under `key` since an evaluation under it last ended. */
  function FirstFailedAt(moves: seq<Move>, key: string): Option<int> {
    if moves == [] then None
    else
      var n := |moves| - 1;
      var s := Run(moves[..n]);
      if Clears(s, moves[n], key) then None
      else if FirstFailedAt(moves[..n], key).Some? then FirstFailedAt(moves[..n], key)
      else if FailsCheck(s, moves[n], key) then Some(moves[n].now)
      else None
  }

  /** How long after the first failed check the next one is, when `n` have failed. */
  function WaitAfter(n: nat): int {
    SETTLE_SECONDS * if n < MAX_BOUNCES then n else MAX_BOUNCES
  }

  /** The member's next check is at `until` or later, unless it is gone from the due set: then it is
      that late already. */
  predicate Held(s: State, m: Key, until: int, clock: int) {
    && (m in s.q.due ==> s.q.due[m] >= until) && (m !in s.q.due ==> clock >= until)
    && (m in Pending(s.phase) ==> !s.phase.Idle? && DrainedAt(s.phase) >= until)
  }

  /** `n` checks failed since the one at `first`. While the last of them is being dealt with, the
      wait it will lead to does not count yet. */
  predicate Late(s: State, m: Key, n: nat, first: int, clock: int) {
    n >= 1 ==>
      if s.phase.Bounced? && s.phase.member == m then
        clock >= first + WaitAfter(n - 1) && (n >= 2 ==> Held(s, m, first + WaitAfter(n - 1), clock))
      else Held(s, m, first + WaitAfter(n), clock)
  }

  lemma WaitGrows(n: nat)
    ensures 0 <= WaitAfter(n) <= WaitAfter(n + 1) <= WaitAfter(n) + SETTLE_SECONDS
    ensures n >= MAX_BOUNCES ==> WaitAfter(n) == MAX_BOUNCES * SETTLE_SECONDS
    ensures WaitAfter(0) == 0
  {
  }

  lemma StepLate(s: State, x: Move, m: Key, first: int, clock: int)
    requires AllApart(s, m) && Orderly(s.phase, clock) && Late(s, m, Count(s.q.bounces, m), first, clock)
    requires x.Work? && x.now >= clock
    requires Count(s.q.bounces, m) == 0 && FailsCheck(s, x, BounceKey(m)) ==> first == x.now
    requires s.phase.Bounced? && s.phase.member == m ==> Count(s.q.bounces, m) == s.phase.count
    ensures var t := Next(s, x); Late(t, m, Count(t.q.bounces, m), first, x.now)
  {
    hide BounceKey, LastWrite, IsSettled, WaitAfter, Bounces;
    var n, p, t := Count(s.q.bounces, m), s.phase, Next(s, x);
    WaitGrows(n);
    if n > 0 { WaitGrows(n - 1); }
    NextCounted(s, x, BounceKey(m));
    if !p.Idle? && !p.Draining? {
      RestDistinct(p.member, p.todo);
      assert p.member in Pending(p) && KeptApart(m, p.member);
    }
    if p.Draining? && p.todo != [] { FirstOf(p.todo); }
  }

  lemma NextLate(s: State, x: Move, m: Key, first: int, clock: int)
    requires AllApart(s, m) && Orderly(s.phase, clock) && Late(s, m, Count(s.q.bounces, m), first, clock)
    requires !x.Crash? && (TimeOf(x).Some? ==> TimeOf(x).value >= clock)
    requires Count(s.q.bounces, m) == 0 && FailsCheck(s, x, BounceKey(m)) ==> first == x.now
    requires s.phase.Bounced? && s.phase.member == m ==> Count(s.q.bounces, m) == s.phase.count
    ensures var t := Next(s, x);
            Late(t, m, Count(t.q.bounces, m), first, if TimeOf(x).Some? then TimeOf(x).value else clock)
  {
    hide BounceKey, LastWrite, IsSettled, WaitAfter, Bounces, Step;
    if x.Work? {
      StepLate(s, x, m, first, clock);
    }
  }

  /** While a failed check is dealt with, the worker has the hash's count in hand. */
  lemma {:induction false} CountInHand(moves: seq<Move>, members: iset<Key>, m: Key)
    requires Announces(moves, members) && AllKeptApart(members, m)
    ensures var s := Run(moves);
            AllApart(s, m) && (s.phase.Bounced? && s.phase.member == m ==> Count(s.q.bounces, m) == s.phase.count)
  {
    hide Run, Capped, BounceKey;
    RunCapped(moves, members, m);
  }

  lemma {:induction false} FailedTogether(moves: seq<Move>, key: string)
    ensures FirstFailedAt(moves, key).Some? <==> FailedChecks(moves, key) > 0
  {
    hide Run, Clears, FailsCheck;
    if moves != [] { FailedTogether(moves[..|moves| - 1], key); }
  }

  lemma {:induction false} RunLate(moves: seq<Move>, members: iset<Key>, m: Key, clock: int)
    requires Announces(moves, members) && AllKeptApart(members, m)
    requires Rising(moves) && ReadBy(moves, clock) && NoCrash(moves)
    ensures var s, first := Run(moves), FirstFailedAt(moves, BounceKey(m));
            first.Some? ==> Late(s, m, Count(s.q.bounces, m), first.value, clock)
  {
    hide Run, Late, AllApart, Orderly, BounceKey, Next, Clears, FailsCheck, FailedChecks;
    if moves != [] {
      var n := |moves| - 1;
      var before, x := moves[..n], moves[n];
      forall i | 0 <= i < n ensures before[i] == moves[i] {}
      assert moves == before + [x];
      RunSnoc(before, x);
      var earlier := if TimeOf(x).Some? then TimeOf(x).value else clock;
      var key := BounceKey(m);
      var s, first := Run(before), FirstFailedAt(moves, key);
      if first.Some? {
        RunLate(before, members, m, earlier);
        RunOrderly(before, earlier);
        CountInHand(before, members, m);
        FailedTogether(before, key);
        BouncesCounted(before, key);
        if FirstFailedAt(before, key).None? { NothingLate(s, m, first.value, earlier); }
        NextLate(s, x, m, first.value, earlier);
        LaterLate(Run(moves), m, first.value, earlier, clock);
      }
    }
  }

  lemma NothingLate(s: State, m: Key, first: int, clock: int)
    requires Count(s.q.bounces, m) == 0
    ensures Late(s, m, 0, first, clock)
  {
  }

  lemma LaterLate(s: State, m: Key, first: int, clock: int, later: int)
    requires Late(s, m, Count(s.q.bounces, m), first, clock) && clock <= later
    ensures Late(s, m, Count(s.q.bounces, m), first, later)
  {
    hide WaitAfter;
  }

  /** Without crashes, a member with a bounce key of its own is evaluated over the cap only
      MAX_BOUNCES times SETTLE_SECONDS or more after the first of its failed checks. */
  lemma OverCapOnlyLate(moves: seq<Move>, x: Move, members: iset<Key>, m: Key)
    requires Announces(moves, members) && AllKeptApart(members, m)
    requires x.Work? && Rising(moves + [x]) && NoCrash(moves)
    requires Begins(Run(moves), x, m) && !ChecksNow(Run(moves), x, m)
    ensures FirstFailedAt(moves, BounceKey(m)).Some?
    ensures x.now >= FirstFailedAt(moves, BounceKey(m)).value + MAX_BOUNCES * SETTLE_SECONDS
  {
    hide Run, Late, AllApart, BounceKey, FailedChecks, IsSettled, LastWrite;
    var s, key := Run(moves), BounceKey(m);
    var all := moves + [x];
    forall i | 0 <= i < |moves| ensures all[i] == moves[i] {}
    assert all[|moves|] == x;
    assert Next(s, x).q.log[|s.q.log|] == Began(m);
    RunLate(moves, members, m, x.now);
    CountInHand(moves, members, m);
    BouncesCounted(moves, key);
    FailedTogether(moves, key);
    OverCap(s, m, FirstFailedAt(moves, key).value, x.now);
  }

  lemma OverCap(s: State, m: Key, first: int, clock: int)
    requires s.phase.Bounced? && s.phase.member == m && Count(s.q.bounces, m) == s.phase.count > MAX_BOUNCES
    requires Late(s, m, Count(s.q.bounces, m), first, clock)
    ensures clock >= first + MAX_BOUNCES * SETTLE_SECONDS
  {
    hide WaitAfter;
    WaitGrows(s.phase.count - 1);
  }
}
