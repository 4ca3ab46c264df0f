/** `handle_message` and `drain_due` as the eval worker runs them, uninterrupted. */
module EvalLoop {
  import opened Tables
  import opened LastWrites
  import opened Settling
  import Ingest

  /** What one drain reads for each member: the clock and the tables at its settle check, the
      clock at putting it off, and whether its evaluation returns. */
  datatype Env = Env(check: Key -> Reading, putOff: Key -> Reading, evaluate: Key -> Reading)

  function ReadingAt(p: Phase, e: Env): Reading {
    match p
    case Checking(m, _, _) => e.check(m)
    case Bounced(m, _, _, _) => e.putOff(m)
    case Evaluating(m, _, _) => e.evaluate(m)
    case _ => Reading(0, Ingest.EMPTY, true)
  }

  /** Every effect brings the drain closer to its end. */
  function Rank(p: Phase): nat {
    match p
    case Idle => 0
    case Draining(_, todo) => 7 * |todo| + 1
    case Checking(_, _, todo) => 7 * |todo| + 6
    case Bounced(_, _, _, todo) => 7 * |todo| + 5
    case Evaluating(_, _, todo) => 7 * |todo| + 4
    case Evaluated(_, _, todo) => 7 * |todo| + 3
    case Removed(_, _, todo) => 7 * |todo| + 2
  }

  /** The queue once the worker in phase `p` is back in its loop. */
  function Drive(q: Queue, p: Phase, e: Env): Queue
    decreases Rank(p)
  {
    if p == Idle then q
    else
      var (t, o) := Step(q, p, ReadingAt(p, e));
      Drive(t, o, e)
  }

  lemma DriveStep(q: Queue, p: Phase, e: Env)
    requires p != Idle
    ensures var (t, o) := Step(q, p, ReadingAt(p, e)); Drive(q, p, e) == Drive(t, o, e)
  {
  }

  lemma DriveIdle(q: Queue, e: Env)
    ensures Drive(q, Idle, e) == q
  {
  }

  class Worker {
    var due: map<Key, int>
    var bounces: map<string, nat>
    ghost var log: seq<Note>

    constructor (q: Queue)
      ensures Contents() == q
    {
      due, bounces, log := q.due, q.bounces, q.log;
    }

    ghost function Contents(): Queue
      reads this
    {
      Queue(due, bounces, log)
    }

    /** `handle_message` */
    method HandleMessage(project: string, trace: string, now: int)
      modifies this
      ensures Contents() == Announced(old(Contents()), Key(project, trace), now)
    {
      var m := Key(project, trace);
      if Usable(m) {
        if m !in due || due[m] < now + SETTLE_SECONDS {
          due := due[m := now + SETTLE_SECONDS];
        }
        log := log + [Scheduled(m)];
      }
    }

    /** The settle check: is the trace to be evaluated now, or was its check put off? */
    method SettleCheck(m: Key, at: int, ghost rest: seq<Key>, e: Env) returns (evaluate: bool)
      modifies this
      ensures Drive(old(Contents()), Checking(m, at, rest), e) ==
              Drive(Contents(), if evaluate then Evaluating(m, at, rest) else Draining(at, rest), e)
    {
      hide Drive, LastWrite;
      DriveStep(Contents(), Checking(m, at, rest), e);
      var r := e.check(m);
      var last := LastWrite(r.db, m);
      if r.now - last >= SETTLE_SECONDS {
        log := log + [Began(m)];
        return true;
      }
      var key := BounceKey(m);
      var count := (if key in bounces then bounces[key] else 0) + 1;
      bounces := bounces[key := count];
      DriveStep(Contents(), Bounced(m, count, at, rest), e);
      if count <= MAX_BOUNCES {
        due := due[m := e.putOff(m).now + SETTLE_SECONDS];
        log := log + [Deferred(m)];
        return false;
      }
      log := log + [Began(m)];
      return true;
    }

    /** After a completed evaluation: ZREM and HDEL. */
    method Forget(m: Key, at: int, ghost rest: seq<Key>, e: Env)
      modifies this
      ensures Drive(old(Contents()), Evaluated(m, at, rest), e) == Drive(Contents(), Draining(at, rest), e)
    {
      hide Drive;
      DriveStep(Contents(), Evaluated(m, at, rest), e);
      due := due - {m};
      DriveStep(Contents(), Removed(m, at, rest), e);
      bounces := bounces - {BounceKey(m)};
    }

    /** `drain_due` on the members Redis returned; an evaluation that raises ends the drain. */
    method DrainDue(now: int, members: seq<Key>, e: Env)
      requires AllDue(Contents(), now, members)
      modifies this
      ensures Contents() == Drive(old(Contents()), Draining(now, members), e)
    {
      hide Drive, AllDue;
      for i := 0 to |members|
        invariant Drive(Contents(), Draining(now, members[i..]), e) == Drive(old(Contents()), Draining(now, members), e)
      {
        var m := members[i];
        ghost var rest := members[i + 1..];
        assert members[i..][0] == m && members[i..][1..] == rest;
        DriveStep(Contents(), Draining(now, members[i..]), e);
        if m in due {  // ZADD ... XX
          due := due[m := now + CLAIM_LEASE_SECONDS];
        }
        var evaluate := SettleCheck(m, now, rest, e);
        if !evaluate { continue; }
        DriveStep(Contents(), Evaluating(m, now, rest), e);
        DriveIdle(Contents(), e);
        if !e.evaluate(m).ok { return; }
        log := log + [Completed(m)];
        Forget(m, now, rest, e);
      }
      assert members[|members|..] == [];
      DriveStep(Contents(), Draining(now, []), e);
      DriveIdle(Contents(), e);
    }
  }
}
