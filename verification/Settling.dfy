/** When a trace is evaluated: the eval worker's debounce over a sorted set of due times, with
    leases and a cap on how often a check may be put off, while the tables go on changing. */
module Settling {
  import opened Tables
  import opened LastWrites
  import Ingest
  import DbInvariants

  const CLAIM_LEASE_SECONDS: int := 120
  const MAX_BOUNCES: nat := 20

  /** What happened, in order; only for the statements. */
  datatype Note =
    | Scheduled(member: Key)
    | Began(member: Key)
    | Deferred(member: Key)
    | Completed(member: Key)

  /** Where the worker is inside `drain_due`. */
  datatype Phase =
    | Idle
    | Draining(at: int, todo: seq<Key>)
    | Checking(member: Key, at: int, todo: seq<Key>)
    | Bounced(member: Key, count: nat, at: int, todo: seq<Key>)
    | Evaluating(member: Key, at: int, todo: seq<Key>)
    | Evaluated(member: Key, at: int, todo: seq<Key>)
    | Removed(member: Key, at: int, todo: seq<Key>)

  /** `due` is the sorted set DUE_KEY, `bounces` the hash BOUNCE_KEY. */
  datatype Queue = Queue(due: map<Key, int>, bounces: map<string, nat>, log: seq<Note>)

  /** What one step reads: the clock, the tables, and whether `evaluate_trace` returns (`ok`)
      or raises. */
  datatype Reading = Reading(now: int, db: Ingest.Db, ok: bool)

  function BounceKey(m: Key): string {
    m.project + ":" + m.id
  }

  function Bounces(bounces: map<string, nat>, key: string): nat {
    if key in bounces then bounces[key] else 0
  }

  function Count(bounces: map<string, nat>, m: Key): nat {
    Bounces(bounces, BounceKey(m))
  }

  /** ZADD ... GT: never earlier. */
  function PutOff(due: map<Key, int>, m: Key, at: int): map<Key, int> {
    if m in due && due[m] >= at then due else due[m := at]
  }

  predicate Usable(m: Key) {
    m.project != "" && m.id != ""
  }

  /** `handle_message` */
  function Announced(q: Queue, m: Key, now: int): Queue {
    if !Usable(m) then q
    else Queue(PutOff(q.due, m, now + SETTLE_SECONDS), q.bounces, q.log + [Scheduled(m)])
  }

  /** One effect of `drain_due`. */
  function Step(q: Queue, p: Phase, r: Reading): (Queue, Phase) {
    match p
    case Idle => (q, Idle)
    case Draining(at, todo) =>
      if todo == [] then (q, Idle)
      else
        var m := todo[0];
        (if m in q.due then q.(due := q.due[m := at + CLAIM_LEASE_SECONDS]) else q, Checking(m, at, todo[1..]))
    case Checking(m, at, todo) =>
      if IsSettled(r.db, m, r.now) then (q.(log := q.log + [Began(m)]), Evaluating(m, at, todo))
      else
        var count := Count(q.bounces, m) + 1;
        (q.(bounces := q.bounces[BounceKey(m) := count]), Bounced(m, count, at, todo))
    case Bounced(m, count, at, todo) =>
      if count <= MAX_BOUNCES then
        (q.(due := q.due[m := r.now + SETTLE_SECONDS], log := q.log + [Deferred(m)]), Draining(at, todo))
      else
        (q.(log := q.log + [Began(m)]), Evaluating(m, at, todo))
    case Evaluating(m, at, todo) =>
      if r.ok then (q.(log := q.log + [Completed(m)]), Evaluated(m, at, todo)) else (q, Idle)
    case Evaluated(m, at, todo) => (q.(due := q.due - {m}), Removed(m, at, todo))
    case Removed(m, at, todo) => (q.(bounces := q.bounces - {BounceKey(m)}), Draining(at, todo))
  }

  // --- runs ------------------------------------------------------------------------------------

  datatype State = State(q: Queue, phase: Phase, db: Ingest.Db)

  datatype Move =
    | Announce(member: Key, now: int)           // this worker handles a message, between drains
    | AnnounceElsewhere(member: Key, now: int)  // another eval worker handles it, at any time
    | Drain(now: int, members: seq<Key>)        // ZRANGEBYSCORE returned `members`
    | Work(now: int, ok: bool)                  // one effect of `drain_due`
    | Write(action: DbInvariants.Action)        // the ingest worker commits, rolls back or re-costs
    | Crash

  const START: State := State(Queue(map[], map[], []), Idle, Ingest.EMPTY)

  predicate Distinct(ms: seq<Key>) {
    forall i, j :: 0 <= i < j < |ms| ==> ms[i] != ms[j]
  }

  predicate AllDue(q: Queue, now: int, ms: seq<Key>) {
    Distinct(ms) && forall m :: m in ms ==> m in q.due && q.due[m] <= now
  }

  function Next(s: State, m: Move): State {
    match m
    case Announce(k, now) => if s.phase.Idle? then s.(q := Announced(s.q, k, now)) else s
    case AnnounceElsewhere(k, now) => s.(q := Announced(s.q, k, now))
    case Drain(now, members) =>
      if s.phase.Idle? && AllDue(s.q, now, members) then s.(phase := Draining(now, members)) else s
    case Work(now, ok) =>
      var (q, p) := Step(s.q, s.phase, Reading(now, s.db, ok));
      State(q, p, s.db)
    case Write(action) => s.(db := DbInvariants.Act(s.db, action))
    case Crash => s.(phase := Idle)
  }

  function Run(moves: seq<Move>): State {
    if moves == [] then START else Next(Run(moves[..|moves| - 1]), moves[|moves| - 1])
  }

  lemma RunSnoc(moves: seq<Move>, m: Move)
    ensures Run(moves + [m]) == Next(Run(moves), m)
  {
    assert (moves + [m])[..|moves|] == moves;
  }

  lemma NoMoves()
    ensures Run([]) == START
  {
  }

  // --- the settle gate ---------------------------------------------------------------------------

  predicate IsCheck(s: State, x: Move) {
    x.Work? && s.phase.Checking?
  }

  /** The move is a settle check of a member under `key`, and the tables do not have the trace
      settled. */
  predicate FailsCheck(s: State, x: Move, key: string) {
    IsCheck(s, x) && BounceKey(s.phase.member) == key && !IsSettled(s.db, s.phase.member, x.now)
  }

  /** The move ends an evaluation of a member under `key`: HDEL. */
  predicate Clears(s: State, x: Move, key: string) {
    x.Work? && s.phase.Removed? && BounceKey(s.phase.member) == key
  }

  /** How many settle checks failed under `key` since an evaluation under it last ended. */
  function FailedChecks(moves: seq<Move>, key: string): nat {
    if moves == [] then 0
    else
      var n := |moves| - 1;
      var s := Run(moves[..n]);
      if Clears(s, moves[n], key) then 0
      else FailedChecks(moves[..n], key) + if FailsCheck(s, moves[n], key) then 1 else 0
  }

  lemma NextCounted(s: State, x: Move, key: string)
    ensures Bounces(Next(s, x).q.bounces, key) ==
            if Clears(s, x, key) then 0 else Bounces(s.q.bounces, key) + if FailsCheck(s, x, key) then 1 else 0
  {
    hide IsSettled, BounceKey, LastWrite;
  }

  /** The bounce hash counts exactly the failed checks since the last evaluation. */
  lemma {:induction false} BouncesCounted(moves: seq<Move>, key: string)
    ensures Bounces(Run(moves).q.bounces, key) == FailedChecks(moves, key)
  {
    hide Next, Clears, FailsCheck, Bounces;
    if moves == [] {
      NothingBounced(key);
    } else {
      var n := |moves| - 1;
      BouncesCounted(moves[..n], key);
      NextCounted(Run(moves[..n]), moves[n], key);
    }
  }

  lemma NothingBounced(key: string)
    ensures Bounces(START.q.bounces, key) == 0
  {
  }

  /** Move `i` is a settle check of `m`, and the last check of all. */
  ghost predicate LastCheck(moves: seq<Move>, i: nat, m: Key) {
    && i < |moves| && IsCheck(Run(moves[..i]), moves[i]) && Run(moves[..i]).phase.member == m
    && forall k :: i < k < |moves| ==> !IsCheck(Run(moves[..k]), moves[k])
  }

  lemma StillLast(moves: seq<Move>, x: Move, i: nat, m: Key)
    requires LastCheck(moves, i, m) && !IsCheck(Run(moves), x)
    ensures LastCheck(moves + [x], i, m)
  {
    hide Run, IsCheck;
    var all := moves + [x];
    assert all[..|moves|] == moves && all[|moves|] == x;
    forall k | 0 <= k < |moves| ensures all[..k] == moves[..k] && all[k] == moves[k] {}
  }

  lemma CheckedNow(moves: seq<Move>, x: Move)
    requires IsCheck(Run(moves), x)
    ensures LastCheck(moves + [x], |moves|, Run(moves).phase.member)
  {
    hide Run;
    assert (moves + [x])[..|moves|] == moves && (moves + [x])[|moves|] == x;
  }

  /** The last check was of `m` and failed, and with it `count` had. */
  ghost predicate BouncedAt(moves: seq<Move>, i: nat, m: Key, count: nat) {
    && LastCheck(moves, i, m) && FailsCheck(Run(moves[..i]), moves[i], BounceKey(m))
    && count == FailedChecks(moves[..i + 1], BounceKey(m))
  }

  ghost predicate BouncedBefore(moves: seq<Move>) {
    var p := Run(moves).phase;
    p.Bounced? ==> exists i: nat :: BouncedAt(moves, i, p.member, p.count)
  }

  lemma NextBounced(moves: seq<Move>, x: Move)
    requires BouncedBefore(moves)
    ensures BouncedBefore(moves + [x])
  {
    hide Run, FailedChecks, IsSettled, BounceKey;
    RunSnoc(moves, x);
    var s, t := Run(moves), Run(moves + [x]);
    if t.phase.Bounced? {
      var m := t.phase.member;
      if s.phase.Bounced? {
        var i: nat :| BouncedAt(moves, i, m, s.phase.count);
        StillLast(moves, x, i, m);
        assert (moves + [x])[..i] == moves[..i] && (moves + [x])[..i + 1] == moves[..i + 1];
        assert BouncedAt(moves + [x], i, m, t.phase.count);
      } else {
        CheckedNow(moves, x);
        BouncesCounted(moves + [x], BounceKey(m));
        assert (moves + [x])[..|moves|] == moves && (moves + [x])[..|moves| + 1] == moves + [x];
        assert BouncedAt(moves + [x], |moves|, m, t.phase.count);
      }
    }
  }

  lemma {:induction false} RunBounced(moves: seq<Move>)
    ensures BouncedBefore(moves)
  {
    if moves == [] {
      NoMoves();
    } else {
      hide BouncedBefore;
      var n := |moves| - 1;
      RunBounced(moves[..n]);
      NextBounced(moves[..n], moves[n]);
      assert moves == moves[..n] + [moves[n]];
    }
  }

  /** An evaluation of `m` begins. */
  predicate Begins(s: State, x: Move, m: Key) {
    Next(s, x).q.log == s.q.log + [Began(m)]
  }

  /** Over every run, batches committing at any time: when an evaluation begins, the last settle
      check was of its trace, and either it found the trace settled in the tables, or it failed,
      as had more than MAX_BOUNCES checks under its bounce key since an evaluation last ended. */
  lemma EvaluationsGated(moves: seq<Move>, x: Move, m: Key) returns (i: nat)
    requires Begins(Run(moves), x, m)
    ensures LastCheck(moves + [x], i, m)
    ensures var s, check := Run((moves + [x])[..i]), (moves + [x])[i];
            IsSettled(s.db, m, check.now) ||
            (FailsCheck(s, check, BounceKey(m)) && FailedChecks((moves + [x])[..i + 1], BounceKey(m)) > MAX_BOUNCES)
  {
    hide Run, IsSettled, FailedChecks, BounceKey;
    var s := Run(moves);
    var all := moves + [x];
    assert all[..|moves|] == moves && all[|moves|] == x;
    assert s.q.log + [Began(m)] != s.q.log;
    assert Next(s, x).q.log[|s.q.log|] == Began(m);
    if IsCheck(s, x) {
      i := |moves|;
      CheckedNow(moves, x);
    } else {
      RunBounced(moves);
      i :| BouncedAt(moves, i, m, s.phase.count);
      StillLast(moves, x, i, m);
      assert all[..i] == moves[..i] && all[..i + 1] == moves[..i + 1];
    }
  }

  // --- the cap ---------------------------------------------------------------------------------------

  /** How often `m`'s check was put off since an evaluation of it last began. */
  function Deferrals(log: seq<Note>, m: Key): nat {
    if log == [] then 0
    else
      var n := log[|log| - 1];
      if n.Began? && n.member == m then 0
      else Deferrals(log[..|log| - 1], m) + if n == Deferred(m) then 1 else 0
  }

  lemma DeferralsSnoc(log: seq<Note>, n: Note, m: Key)
    ensures Deferrals(log + [n], m) ==
            if n.Began? && n.member == m then 0 else Deferrals(log, m) + if n == Deferred(m) then 1 else 0
  {
    assert (log + [n])[..|log|] == log;
  }

  /** No other member's bounces are counted with `m`'s. */
  predicate KeptApart(m: Key, other: Key) {
    other == m || BounceKey(other) != BounceKey(m)
  }

  function Pending(p: Phase): seq<Key> {
    match p
    case Idle => []
    case Draining(_, todo) => todo
    case Checking(m, _, todo) => [m] + todo
    case Bounced(m, _, _, todo) => [m] + todo
    case Evaluating(m, _, todo) => [m] + todo
    case Evaluated(m, _, todo) => [m] + todo
    case Removed(m, _, todo) => [m] + todo
  }

  predicate AllApart(s: State, m: Key) {
    (forall k :: k in s.q.due ==> KeptApart(m, k)) && forall k :: k in Pending(s.phase) ==> KeptApart(m, k)
  }

  predicate Capped(q: Queue, m: Key) {
    Deferrals(q.log, m) <= MAX_BOUNCES && Deferrals(q.log, m) <= Count(q.bounces, m)
  }

  /** What the bounce hash says while the worker is at `m`. */
  predicate Tallied(q: Queue, p: Phase, m: Key) {
    match p
    case Bounced(k, count, _, _) => k == m ==> count == Count(q.bounces, m) && Deferrals(q.log, m) < count
    case Evaluating(k, _, _) => k == m ==> Deferrals(q.log, m) == 0
    case Evaluated(k, _, _) => k == m ==> Deferrals(q.log, m) == 0
    case Removed(k, _, _) => k == m ==> Deferrals(q.log, m) == 0
    case _ => true
  }

  lemma StepCapped(q: Queue, p: Phase, r: Reading, m: Key, db: Ingest.Db)
    requires AllApart(State(q, p, db), m) && Capped(q, m) && Tallied(q, p, m)
    ensures var (t, o) := Step(q, p, r); AllApart(State(t, o, db), m) && Capped(t, m) && Tallied(t, o, m)
  {
    hide BounceKey, LastWrite, IsSettled, Deferrals;
    var (t, o) := Step(q, p, r);
    if p.Removed? || p.Checking? {
      assert p.member in Pending(p);
    }
    if |t.log| > |q.log| {
      var n := t.log[|q.log|];
      assert t.log == q.log + [n];
      DeferralsSnoc(q.log, n, m);
    } else {
      assert t.log == q.log;
    }
  }

  /** Every announcement is of one of the members. */
  ghost predicate Announces(moves: seq<Move>, members: iset<Key>) {
    forall i :: 0 <= i < |moves| && (moves[i].Announce? || moves[i].AnnounceElsewhere?) ==> moves[i].member in members
  }

  ghost predicate AllKeptApart(members: iset<Key>, m: Key) {
    forall k :: k in members && Usable(k) ==> KeptApart(m, k)
  }

  lemma NextCapped(s: State, x: Move, m: Key)
    requires AllApart(s, m) && Capped(s.q, m) && Tallied(s.q, s.phase, m)
    requires (x.Announce? || x.AnnounceElsewhere?) && Usable(x.member) ==> KeptApart(m, x.member)
    ensures var t := Next(s, x); AllApart(t, m) && Capped(t.q, m) && Tallied(t.q, t.phase, m)
  {
    hide Deferrals, Step, BounceKey;
    match x
    case Work(now, ok) => StepCapped(s.q, s.phase, Reading(now, s.db, ok), m, s.db);
    case Drain(now, members) =>
    case Crash =>
    case Write(_) =>
    case _ => DeferralsSnoc(s.q.log, Scheduled(x.member), m);
  }

  lemma {:induction false} RunCapped(moves: seq<Move>, members: iset<Key>, m: Key)
    requires Announces(moves, members) && AllKeptApart(members, m)
    ensures var s := Run(moves); AllApart(s, m) && Capped(s.q, m) && Tallied(s.q, s.phase, m)
  {
    hide Capped, Tallied, AllApart, Next, KeptApart;
    if moves == [] {
      NothingCounted(m);
    } else {
      var n := |moves| - 1;
      assert forall i :: 0 <= i < n ==> moves[..n][i] == moves[i];
      RunCapped(moves[..n], members, m);
      NextCapped(Run(moves[..n]), moves[n], m);
    }
  }

  lemma NothingCounted(m: Key)
    ensures AllApart(START, m) && Capped(START.q, m) && Tallied(START.q, START.phase, m)
  {
  }

  /** Whatever writes and announcements of the members keep arriving, at most MAX_BOUNCES due
      checks in a row put `m`'s evaluation off. */
  ghost predicate CapHolds(members: iset<Key>, m: Key) {
    forall moves :: Announces(moves, members) ==> Deferrals(Run(moves).q.log, m) <= MAX_BOUNCES
  }

  /** The cap holds for a member exactly when no other member files its bounces under the same
      hash field. */
  lemma CapIffKeptApart(members: iset<Key>, m: Key)
    requires m in members && Usable(m)
    ensures CapHolds(members, m) <==> AllKeptApart(members, m)
  {
    hide Run, Deferrals, BounceKey;
    if AllKeptApart(members, m) {
      forall moves | Announces(moves, members) ensures Deferrals(Run(moves).q.log, m) <= MAX_BOUNCES {
        RunCapped(moves, members, m);
      }
    } else {
      var b :| b in members && Usable(b) && !KeptApart(m, b);
      var moves := CollidingKeysDefeatCap(m, b);
      assert Announces(moves, members);
    }
  }

  /** Project ids without a colon keep all members apart. */
  lemma ColonFreeKeptApart(a: Key, b: Key)
    requires ':' !in a.project && ':' !in b.project
    ensures KeptApart(a, b)
  {
    hide BounceKey;
    if BounceKey(a) == BounceKey(b) {
      FirstColon(a);
      FirstColon(b);
      assert |a.project| == |b.project|;
    }
  }

  lemma FirstColon(m: Key)
    requires ':' !in m.project
    ensures |BounceKey(m)| > |m.project| && BounceKey(m)[|m.project|] == ':'
    ensures forall i :: 0 <= i < |m.project| ==> BounceKey(m)[i] != ':'
    ensures BounceKey(m)[..|m.project|] == m.project && BounceKey(m)[|m.project| + 1..] == m.id
  {
  }

  // --- a run past the cap ------------------------------------------------------------------------------

  ghost predicate AnnouncesTwo(moves: seq<Move>, a: Key, b: Key) {
    Announces(moves, iset{a, b})
  }

  lemma OneMore(moves: seq<Move>, x: Move, a: Key, b: Key)
    requires AnnouncesTwo(moves, a, b)
    requires x.Announce? || x.AnnounceElsewhere? ==> x.member == a || x.member == b
    ensures AnnouncesTwo(moves + [x], a, b) && Run(moves + [x]) == Next(Run(moves), x)
  {
    RunSnoc(moves, x);
  }

  /** `s` is between drains, `a` and `b` are due at `t`, `b` has no trace row, and `a` was put
      off `n` times. */
  predicate PutOffSoFar(s: State, a: Key, b: Key, n: nat, t: int) {
    && s.phase == Idle && a in s.q.due && b in s.q.due && s.q.due[a] <= t && s.q.due[b] <= t
    && Deferrals(s.q.log, a) == n
    && b !in s.db.traces && (a in s.db.traces ==> RowInOrder(s.db, a)) && t >= SETTLE_SECONDS
  }

  /** One more due check at time `t`, just after `a` was written. */
  lemma PutOffOnce(before: seq<Move>, a: Key, b: Key, n: nat, t: int) returns (moves: seq<Move>)
    requires a != b && PutOffSoFar(Run(before), a, b, n, t) && Count(Run(before).q.bounces, a) < MAX_BOUNCES
    requires AnnouncesTwo(before, a, b)
    ensures PutOffSoFar(Run(moves), a, b, n + 1, t + SETTLE_SECONDS) && AnnouncesTwo(moves, a, b)
    ensures Count(Run(moves).q.bounces, a) == Count(Run(before).q.bounces, a) + 1
  {
    hide Run, Deferrals, BounceKey, LastWrite, DbInvariants.Act, Touch, RowInOrder, AnnouncesTwo;
    var s := Run(before);
    TouchedInOrder(s.db, a, t);
    OneMore(before, Write(Touch(a, t)), a, b);
    var m0 := before + [Write(Touch(a, t))];
    OneMore(m0, Drain(t, [a]), a, b);
    var m1 := m0 + [Drain(t, [a])];
    assert Run(m1).phase == Draining(t, [a]);
    var work := Work(t, true);
    OneMore(m1, work, a, b);
    var m2 := m1 + [work];
    OneMore(m2, work, a, b);
    var m3 := m2 + [work];
    OneMore(m3, work, a, b);
    var m4 := m3 + [work];
    OneMore(m4, work, a, b);
    moves := m4 + [work];
    DeferralsSnoc(s.q.log, Deferred(a), a);
  }

  lemma {:induction false} PutOffTimes(before: seq<Move>, a: Key, b: Key, t: int, n: nat) returns (moves: seq<Move>)
    requires a != b && PutOffSoFar(Run(before), a, b, 0, t) && Count(Run(before).q.bounces, a) == 0 && n <= MAX_BOUNCES
    requires AnnouncesTwo(before, a, b)
    ensures PutOffSoFar(Run(moves), a, b, n, t + n * SETTLE_SECONDS) && Count(Run(moves).q.bounces, a) == n
    ensures AnnouncesTwo(moves, a, b)
  {
    hide Run, Deferrals, BounceKey, PutOffSoFar, AnnouncesTwo;
    if n == 0 {
      moves := before;
    } else {
      var so := PutOffTimes(before, a, b, t, n - 1);
      moves := PutOffOnce(so, a, b, n - 1, t + (n - 1) * SETTLE_SECONDS);
    }
  }

  /** `b` counts as settled and is evaluated, which clears the bounce count under its key. */
  lemma OtherEvaluated(before: seq<Move>, a: Key, b: Key, n: nat, t: int) returns (moves: seq<Move>)
    requires a != b && PutOffSoFar(Run(before), a, b, n, t) && BounceKey(a) == BounceKey(b) && AnnouncesTwo(before, a, b)
    ensures Run(moves).phase == Idle && a in Run(moves).q.due && Run(moves).q.due[a] <= t && b !in Run(moves).q.due
    ensures Deferrals(Run(moves).q.log, a) == n && Count(Run(moves).q.bounces, a) == 0
    ensures AnnouncesTwo(moves, a, b) && Run(moves).db == Run(before).db
  {
    hide Run, Deferrals, BounceKey, LastWrite, IsSettled, RowInOrder, AnnouncesTwo;
    var work := Work(t, true);
    var q := Run(before).q;
    AbsentTraceSettled(Run(before).db, b, t);
    OneMore(before, Drain(t, [b]), a, b);
    var m1 := before + [Drain(t, [b])];
    assert Run(m1).phase == Draining(t, [b]);
    OneMore(m1, work, a, b);
    var m2 := m1 + [work];
    OneMore(m2, work, a, b);
    var m3 := m2 + [work];
    OneMore(m3, work, a, b);
    var m4 := m3 + [work];
    OneMore(m4, work, a, b);
    var m5 := m4 + [work];
    OneMore(m5, work, a, b);
    var m6 := m5 + [work];
    OneMore(m6, work, a, b);
    moves := m6 + [work];
    DeferralsSnoc(q.log, Began(b), a);
    DeferralsSnoc(q.log + [Began(b)], Completed(b), a);
  }

  /** Two members with one bounce key: evaluating one resets the other's count. */
  lemma CollidingKeysDefeatCap(a: Key, b: Key) returns (moves: seq<Move>)
    requires a != b && BounceKey(a) == BounceKey(b) && Usable(a) && Usable(b)
    ensures AnnouncesTwo(moves, a, b) && Deferrals(Run(moves).q.log, a) > MAX_BOUNCES
  {
    hide Run, Deferrals, BounceKey, AnnouncesTwo;
    assert Run([]) == START && AnnouncesTwo([], a, b) by { NoMoves(); NoneAnnounced(a, b); }
    OneMore([], Announce(a, 0), a, b);
    var first := [] + [Announce(a, 0)];
    OneMore(first, Announce(b, 0), a, b);
    var scheduled := first + [Announce(b, 0)];
    DeferralsSnoc([], Scheduled(a), a);
    DeferralsSnoc([Scheduled(a)], Scheduled(b), a);
    assert Deferrals([], a) == 0 by { NothingDeferred(a); }
    assert [] + [Scheduled(a)] == [Scheduled(a)];
    assert Run(scheduled).q.log == [Scheduled(a)] + [Scheduled(b)];
    var capped := PutOffTimes(scheduled, a, b, SETTLE_SECONDS, MAX_BOUNCES);
    var later := SETTLE_SECONDS + MAX_BOUNCES * SETTLE_SECONDS;
    var reset := OtherEvaluated(capped, a, b, MAX_BOUNCES, later);
    OneMore(reset, Announce(b, later), a, b);
    var again := reset + [Announce(b, later)];
    DeferralsSnoc(Run(reset).q.log, Scheduled(b), a);
    moves := PutOffOnce(again, a, b, MAX_BOUNCES, later + SETTLE_SECONDS);
  }

  lemma NoneAnnounced(a: Key, b: Key)
    ensures AnnouncesTwo([], a, b)
  {
  }

  lemma NothingDeferred(m: Key)
    ensures Deferrals([], m) == 0
  {
  }

  // --- when a schedule can be forgotten -------------------------------------------------------------------

  /** An evaluation of `m` begins at note `b` and the worker finds it completed at note `c`. */
  predicate Evaluation(log: seq<Note>, m: Key, b: int, c: int) {
    && 0 <= b < c < |log| && log[b].Began? && log[b].member == m && log[c] == Completed(m)
    && OnlyScheduled(log, m, b, c)
  }

  /** Between notes `b` and `c`, `m` was scheduled at most. */
  predicate OnlyScheduled(log: seq<Note>, m: Key, b: int, c: int)
    requires -1 <= b <= c <= |log|
  {
    forall j :: b < j < c && log[j].member == m ==> log[j].Scheduled?
  }

  /** An evaluation of `m` that began after note `i` has completed. */
  ghost predicate ServedAfter(log: seq<Note>, m: Key, i: nat) {
    exists b, c :: i < b && Evaluation(log, m, b, c)
  }

  /** An evaluation of `m` that began after note `i` is under way. */
  ghost predicate UnderWay(log: seq<Note>, m: Key, i: nat) {
    exists b :: i < b < |log| && log[b].Began? && log[b].member == m && OnlyScheduled(log, m, b, |log|)
  }

  ghost predicate Remembered(s: State, m: Key, i: nat) {
    m in s.q.due || ServedAfter(s.q.log, m, i)
  }

  /** The schedule at note `i` is remembered, and what the worker is doing to `m` began later. */
  ghost predicate Safe(s: State, m: Key, i: nat) {
    && i < |s.q.log| && Remembered(s, m, i)
    && (s.phase.Evaluating? && s.phase.member == m ==> UnderWay(s.q.log, m, i))
    && (s.phase.Evaluated? && s.phase.member == m ==> ServedAfter(s.q.log, m, i))
  }

  lemma StillServed(log: seq<Note>, n: Note, m: Key, i: nat)
    requires ServedAfter(log, m, i)
    ensures ServedAfter(log + [n], m, i)
  {
    var b, c :| i < b && Evaluation(log, m, b, c);
    assert Evaluation(log + [n], m, b, c);
  }

  lemma StillUnderWay(log: seq<Note>, n: Note, m: Key, i: nat)
    requires UnderWay(log, m, i)
    ensures n.Scheduled? || n.member != m ==> UnderWay(log + [n], m, i)
    ensures n == Completed(m) ==> ServedAfter(log + [n], m, i)
  {
    var b :| i < b < |log| && log[b].Began? && log[b].member == m && OnlyScheduled(log, m, b, |log|);
    var more := log + [n];
    assert more[b] == log[b];
    if n == Completed(m) {
      assert Evaluation(more, m, b, |log|);
    } else if n.Scheduled? || n.member != m {
      assert OnlyScheduled(more, m, b, |more|);
    }
  }

  lemma NowUnderWay(log: seq<Note>, n: Note, m: Key, i: nat)
    requires i < |log| && n.Began? && n.member == m
    ensures UnderWay(log + [n], m, i)
  {
    assert (log + [n])[|log|] == n;
  }

  lemma LoggedSafe(log: seq<Note>, n: Note, m: Key, i: nat)
    requires i < |log|
    ensures ServedAfter(log, m, i) ==> ServedAfter(log + [n], m, i)
    ensures n.Began? && n.member == m ==> UnderWay(log + [n], m, i)
    ensures UnderWay(log, m, i) && (n.Scheduled? || n.member != m) ==> UnderWay(log + [n], m, i)
    ensures UnderWay(log, m, i) && n == Completed(m) ==> ServedAfter(log + [n], m, i)
  {
    hide ServedAfter, UnderWay;
    if ServedAfter(log, m, i) { StillServed(log, n, m, i); }
    if UnderWay(log, m, i) { StillUnderWay(log, n, m, i); }
    if n.Began? && n.member == m { NowUnderWay(log, n, m, i); }
  }

  /** Nothing that happens later endangers a schedule that is safe. */
  lemma NextSafe(s: State, x: Move, m: Key, i: nat)
    requires Safe(s, m, i)
    ensures Safe(Next(s, x), m, i)
  {
    hide ServedAfter, UnderWay, BounceKey, LastWrite, IsSettled, DbInvariants.Act;
    var t := Next(s, x);
    if |t.q.log| > |s.q.log| {
      assert t.q.log == s.q.log + [t.q.log[|s.q.log|]];
      LoggedSafe(s.q.log, t.q.log[|s.q.log|], m, i);
    } else {
      assert t.q.log == s.q.log;
    }
  }

  lemma {:induction false} StaysSafe(before: seq<Move>, more: seq<Move>, m: Key, i: nat)
    requires Safe(Run(before), m, i)
    ensures Safe(Run(before + more), m, i)
  {
    hide Safe, Next;
    if more == [] {
      assert before + more == before;
    } else {
      var n := |more| - 1;
      StaysSafe(before, more[..n], m, i);
      assert before + more == before + more[..n] + [more[n]];
      RunSnoc(before + more[..n], more[n]);
      NextSafe(Run(before + more[..n]), more[n], m, i);
    }
  }

  /** Some worker is between `evaluate_trace` and ZREM for `m`. */
  predicate BeingEvaluated(p: Phase, m: Key) {
    (p.Evaluating? || p.Evaluated?) && p.member == m
  }

  lemma ScheduledSafe(s: State, x: Move, m: Key)
    requires Usable(m) && !BeingEvaluated(s.phase, m) && x.AnnounceElsewhere? && x.member == m
    ensures Safe(Next(s, x), m, |s.q.log|)
  {
  }

  /** An announcement handled elsewhere can come to be forgotten exactly when it arrives while
      this worker is evaluating the trace: between the settle check that let it begin and ZREM. */
  lemma ForgettableIffBeingEvaluated(moves: seq<Move>, m: Key, now: int)
    requires Usable(m)
    ensures (exists more :: !Remembered(Run(moves + [AnnounceElsewhere(m, now)] + more), m, |Run(moves).q.log|)) <==>
            BeingEvaluated(Run(moves).phase, m)
  {
    hide Run, Safe, Remembered;
    var x, i := AnnounceElsewhere(m, now), |Run(moves).q.log|;
    RunSnoc(moves, x);
    if BeingEvaluated(Run(moves).phase, m) {
      var more := Forget(moves, m, now);
    } else {
      ScheduledSafe(Run(moves), x, m);
      forall more ensures Remembered(Run(moves + [x] + more), m, i) {
        StaysSafe(moves + [x], more, m, i);
        assert Safe(Run(moves + [x] + more), m, i);
        SafeRemembered(Run(moves + [x] + more), m, i);
      }
    }
  }

  lemma SafeRemembered(s: State, m: Key, i: nat)
    requires Safe(s, m, i)
    ensures Remembered(s, m, i)
  {
  }

  /** The worker goes on as it would, and ZREM removes the announcement with the rest. */
  lemma Forget(moves: seq<Move>, m: Key, now: int) returns (more: seq<Move>)
    requires Usable(m) && BeingEvaluated(Run(moves).phase, m)
    ensures !Remembered(Run(moves + [AnnounceElsewhere(m, now)] + more), m, |Run(moves).q.log|)
  {
    hide Run;
    var x, work := AnnounceElsewhere(m, now), Work(now, true);
    var i := |Run(moves).q.log|;
    var announced := moves + [x];
    RunSnoc(moves, x);
    RunSnoc(announced, work);
    if Run(moves).phase.Evaluated? {
      more := [work];
    } else {
      RunSnoc(announced + [work], work);
      more := [work] + [work];
      assert announced + more == announced + [work] + [work];
    }
    var log := Run(announced + more).q.log;
    assert forall j :: i < j < |log| ==> !log[j].Began?;
  }

  /** No announcement of `m` is handled elsewhere while this worker is evaluating it. */
  ghost predicate Guarded(moves: seq<Move>, m: Key) {
    forall i :: 0 <= i < |moves| && moves[i].AnnounceElsewhere? && moves[i].member == m ==>
      !BeingEvaluated(Run(moves[..i]).phase, m)
  }

  /** Crashes anywhere, announcements handled here or elsewhere: unless one arrives elsewhere in
      the middle of an evaluation, a scheduled trace stays in the due set until an evaluation of
      it that began later has completed. */
  lemma {:induction false} NoScheduledTraceForgotten(moves: seq<Move>, m: Key, i: nat)
    requires Guarded(moves, m)
    requires i < |Run(moves).q.log| && Run(moves).q.log[i] == Scheduled(m)
    ensures Remembered(Run(moves), m, i) && Safe(Run(moves), m, i)
  {
    hide Safe, Remembered, BeingEvaluated, Announced, Step, DbInvariants.Act;
    if moves == [] {
      NoMoves();
    } else {
      var n := |moves| - 1;
      var before, x := moves[..n], moves[n];
      assert moves == before + [x];
      RunSnoc(before, x);
      forall j | 0 <= j < n ensures before[j] == moves[j] && before[..j] == moves[..j] {}
      if i < |Run(before).q.log| {
        LogGrows(Run(before), x);
        NoScheduledTraceForgotten(before, m, i);
        NextSafe(Run(before), x, m, i);
      } else {
        assert moves[..n] == before;
        NewSchedule(Run(before), x, m, i);
      }
      SafeRemembered(Run(moves), m, i);
    }
  }

  lemma LogGrows(s: State, x: Move)
    ensures s.q.log <= Next(s, x).q.log
  {
    hide BounceKey, LastWrite, IsSettled, DbInvariants.Act;
  }

  lemma NewSchedule(s: State, x: Move, m: Key, i: nat)
    requires |s.q.log| <= i < |Next(s, x).q.log| && Next(s, x).q.log[i] == Scheduled(m)
    requires x.AnnounceElsewhere? && x.member == m ==> !BeingEvaluated(s.phase, m)
    ensures Safe(Next(s, x), m, i)
  {
    hide BounceKey, LastWrite, IsSettled, DbInvariants.Act;
  }

  /** One eval worker: no announcement is handled elsewhere. */
  ghost predicate OneWorker(moves: seq<Move>) {
    forall i :: 0 <= i < |moves| ==> !moves[i].AnnounceElsewhere?
  }

  /** With a second worker the guard can fail: an announcement arrives between `evaluate_trace`
      and ZREM, and is lost. */
  lemma TwoWorkersForget(m: Key) returns (moves: seq<Move>, i: nat)
    requires Usable(m)
    ensures i < |Run(moves).q.log| && Run(moves).q.log[i] == Scheduled(m) && !Remembered(Run(moves), m, i)
  {
    hide Run, LastWrite, IsSettled;
    var work := Work(SETTLE_SECONDS, true);
    assert Run([]) == START && [] + [Announce(m, 0)] == [Announce(m, 0)] by { NoMoves(); }
    RunSnoc([], Announce(m, 0));
    var scheduled := [Announce(m, 0)];
    RunSnoc(scheduled, Drain(SETTLE_SECONDS, [m]));
    var draining := scheduled + [Drain(SETTLE_SECONDS, [m])];
    RunSnoc(draining, work);
    AbsentTraceSettled(Ingest.EMPTY, m, SETTLE_SECONDS);
    RunSnoc(draining + [work], work);
    var evaluating := draining + [work] + [work];
    assert BeingEvaluated(Run(evaluating).phase, m);
    i := |Run(evaluating).q.log|;
    var more := Forget(evaluating, m, 6);
    moves := evaluating + [AnnounceElsewhere(m, 6)] + more;
    RunSnoc(evaluating, AnnounceElsewhere(m, 6));
    LogKept(evaluating + [AnnounceElsewhere(m, 6)], more);
  }

  lemma PrefixTransitive(a: seq<Note>, b: seq<Note>, c: seq<Note>)
    requires a <= b <= c
    ensures a <= c
  {
  }

  lemma {:induction false} LogKept(before: seq<Move>, more: seq<Move>)
    ensures Run(before).q.log <= Run(before + more).q.log
  {
    hide Next, Run;
    if more == [] {
      assert before + more == before;
    } else {
      var n := |more| - 1;
      LogKept(before, more[..n]);
      var middle := before + more[..n];
      assert before + more == middle + [more[n]];
      RunSnoc(middle, more[n]);
      LogGrows(Run(middle), more[n]);
      PrefixTransitive(Run(before).q.log, Run(middle).q.log, Run(before + more).q.log);
    }
  }

  /** An announcement never moves a check earlier, and moves no other check. */
  lemma AnnouncedNeverEarlier(q: Queue, m: Key, now: int, other: Key)
    requires other in q.due
    ensures var t := Announced(q, m, now);
            && other in t.due && t.due[other] >= q.due[other]
            && (t.due[other] != q.due[other] ==> other == m && t.due[m] == now + SETTLE_SECONDS)
  {
  }

  /** After the announcement of a trace with a project and an id, its check is due SETTLE_SECONDS
      later, or when it was due before if that is later still; an announcement without either
      schedules nothing. */
  lemma AnnouncedDue(q: Queue, m: Key, now: int)
    ensures var t := Announced(q, m, now);
            && t.bounces == q.bounces
            && (m.project == "" || m.id == "" ==> t == q)
            && (m.project != "" && m.id != "" ==>
                  && t.due.Keys == q.due.Keys + {m}
                  && t.due[m] >= now + SETTLE_SECONDS
                  && (m !in q.due ==> t.due[m] == now + SETTLE_SECONDS)
                  && (m in q.due ==> t.due[m] >= q.due[m] && (t.due[m] == q.due[m] || t.due[m] == now + SETTLE_SECONDS))
                  && forall k :: k in q.due && k != m ==> t.due[k] == q.due[k])
  {
  }

  // --- leases ------------------------------------------------------------------------------------------------

  predicate StillDue(q: Queue, at: int, todo: seq<Key>) {
    Distinct(todo) && forall m :: m in todo ==> m in q.due && q.due[m] <= at
  }

  predicate LeasedUntil(q: Queue, m: Key, at: int, todo: seq<Key>) {
    m in q.due && q.due[m] == at + CLAIM_LEASE_SECONDS && m !in todo && StillDue(q, at, todo)
  }

  /** The member being worked on was due, is leased, and the rest of the drain is still due. */
  predicate Leased(q: Queue, p: Phase) {
    match p
    case Idle => true
    case Draining(at, todo) => StillDue(q, at, todo)
    case Checking(m, at, todo) => LeasedUntil(q, m, at, todo)
    case Bounced(m, _, at, todo) => LeasedUntil(q, m, at, todo)
    case Evaluating(m, at, todo) => LeasedUntil(q, m, at, todo)
    case Evaluated(m, at, todo) => LeasedUntil(q, m, at, todo)
    case Removed(m, at, todo) => StillDue(q, at, todo)
  }

  lemma StepLeased(q: Queue, p: Phase, r: Reading)
    requires Leased(q, p)
    ensures Leased(Step(q, p, r).0, Step(q, p, r).1)
  {
    hide BounceKey, LastWrite, IsSettled;
    if p.Draining? && p.todo != [] {
      var m, rest := p.todo[0], p.todo[1..];
      assert p.todo == [m] + rest;
      assert Distinct(rest) && m !in rest;
    }
  }

  /** With one worker, whatever the worker is doing to a member, the member was due when the
      drain began and is due again when its lease ends, should the worker crash. */
  lemma {:induction false} LeaseHeld(moves: seq<Move>)
    requires OneWorker(moves)
    ensures Leased(Run(moves).q, Run(moves).phase)
  {
    hide Step, StillDue, LeasedUntil, DbInvariants.Act;
    if moves != [] {
      var n := |moves| - 1;
      assert forall i :: 0 <= i < n ==> moves[..n][i] == moves[i];
      LeaseHeld(moves[..n]);
      var s := Run(moves[..n]);
      match moves[n]
      case Work(now, ok) => StepLeased(s.q, s.phase, Reading(now, s.db, ok));
      case Drain(now, members) => DrainLeased(s.q, now, members);
      case _ =>
    }
  }

  lemma DrainLeased(q: Queue, now: int, members: seq<Key>)
    ensures AllDue(q, now, members) ==> StillDue(q, now, members)
  {
  }
}
