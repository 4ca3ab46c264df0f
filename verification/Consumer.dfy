/** `handle_batch` and `dead_letter` as one worker runs them, uninterrupted. */
module Consumer {
  import opened Tables
  import opened Events
  import opened Pricing
  import opened Ingest
  import opened StreamWorker

  /** What the outside world decides during one call: about the batch transaction, about each
      message's own transaction, and about each dead letter's. */
  datatype Env = Env(batch: Attempt, alone: nat -> Attempt, letter: nat -> Attempt)

  function AttemptAt(p: Phase, e: Env): Attempt {
    match p
    case Alone(ids) => if ids == [] then e.batch else e.alone(ids[0])
    case Writing(id, _) => e.letter(id)
    case _ => e.batch
  }

  /** Every effect of a phase brings a worker closer to the end of the call. */
  function Rank(p: Phase): nat {
    match p
    case Idle => 0
    case Parking(poison, parsed) => 4 * |poison| + 6 * |parsed| + 6
    case Batch(ids) => 6 * |ids| + 4
    case AckBatch(ids) => 3
    case ClearBatch(ids) => 1
    case Alone(ids) => 6 * |ids| + 1
    case AckOne(_, rest) => 6 * |rest| + 3
    case ClearOne(_, rest) => 6 * |rest| + 2
    case Failed(_, rest) => 6 * |rest| + 6
    case Counted(_, _, rest) => 6 * |rest| + 5
    case Writing(_, next) => Rank(next) + 3
    case AckDead(_, next) => Rank(next) + 2
    case ClearDead(_, next) => Rank(next) + 1
  }

  lemma StepRanks(s: Store, p: Phase, a: Attempt)
    requires p != Idle
    ensures Rank(Step(s, p, a).1) < Rank(p)
  {
    hide Transact;
  }

  /** The store once a worker in phase `p` is through, nobody else interfering. */
  function Drive(s: Store, p: Phase, e: Env): Store
    decreases Rank(p)
  {
    if p == Idle then s
    else
      StepRanks(s, p, AttemptAt(p, e));
      var (t, q) := Step(s, p, AttemptAt(p, e));
      Drive(t, q, e)
  }

  /** What one call of `handle_batch` on the messages `ids` makes of the store. */
  function Handled(s: Store, ids: seq<nat>, e: Env): Store {
    Drive(s, Start(s, ids), e)
  }

  lemma DriveStep(s: Store, p: Phase, e: Env)
    requires p != Idle
    ensures var (t, q) := Step(s, p, AttemptAt(p, e)); Drive(s, p, e) == Drive(t, q, e)
  {
  }

  // --- the call, message by message ----------------------------------------------------------

  /** What `dead_letter` does to the store; it acks even when its own write fails. */
  function Parked(s: Store, id: nat, a: Attempt): Store {
    Cleared(Acked(Lettered(s, id, a), {id}), {id})
  }

  lemma DriveParked(s: Store, id: nat, next: Phase, e: Env)
    ensures Drive(s, Writing(id, next), e) == Drive(Parked(s, id, e.letter(id)), next, e)
  {
    hide Drive;
    DriveStep(s, Writing(id, next), e);
    var written := Step(s, Writing(id, next), e.letter(id)).0;
    DriveStep(written, AckDead(id, next), e);
    DriveStep(Acked(written, {id}), ClearDead(id, next), e);
  }

  /** The fallback on one message. */
  function TriedAlone(s: Store, id: nat, e: Env): Store {
    var r := Transact(s, [id], e.alone(id));
    if r.Some? then Cleared(Acked(r.value, {id}), {id})
    else
      var t := Missed(s, id);
      if Count(t.retries, id) >= MAX_RETRIES then Parked(t, id, e.letter(id)) else t
  }

  lemma DriveAlone(s: Store, ids: seq<nat>, e: Env)
    ensures Drive(s, Alone(ids), e) == if ids == [] then s else Drive(TriedAlone(s, ids[0], e), Alone(ids[1..]), e)
  {
    hide Transact, Drive;
    DriveStep(s, Alone(ids), e);
    if ids == [] {
      assert Drive(s, Idle, e) == s by { DriveIdle(s, e); }
    } else {
      var id, rest := ids[0], ids[1..];
      var r := Transact(s, [id], e.alone(id));
      if r.Some? {
        DriveStep(r.value, AckOne(id, rest), e);
        DriveStep(Acked(r.value, {id}), ClearOne(id, rest), e);
      } else {
        DriveStep(s, Failed(id, rest), e);
        var t := Missed(s, id);
        DriveStep(t, Counted(id, Count(t.retries, id), rest), e);
        DriveParked(t, id, Alone(rest), e);
      }
    }
  }

  lemma DriveIdle(s: Store, e: Env)
    ensures Drive(s, Idle, e) == s
  {
  }

  lemma DriveBatch(s: Store, ids: seq<nat>, e: Env)
    ensures Drive(s, Phase.Batch(ids), e) ==
            match Transact(s, ids, e.batch)
            case Some(t) => Cleared(Acked(t, IdSet(ids)), IdSet(ids))
            case None => Drive(s, Alone(ids), e)
  {
    hide Transact, Drive;
    DriveStep(s, Phase.Batch(ids), e);
    var r := Transact(s, ids, e.batch);
    if r.Some? {
      DriveStep(r.value, AckBatch(ids), e);
      DriveStep(Acked(r.value, IdSet(ids)), ClearBatch(ids), e);
      DriveIdle(Cleared(Acked(r.value, IdSet(ids)), IdSet(ids)), e);
    }
  }

  lemma DriveParking(s: Store, poison: seq<nat>, parsed: seq<nat>, e: Env)
    ensures Drive(s, Parking(poison, parsed), e) ==
            if poison != [] then Drive(Parked(s, poison[0], e.letter(poison[0])), Parking(poison[1..], parsed), e)
            else if parsed != [] then Drive(s, Phase.Batch(parsed), e) else s
  {
    hide Transact, Drive;
    DriveStep(s, Parking(poison, parsed), e);
    if poison != [] {
      DriveParked(s, poison[0], Parking(poison[1..], parsed), e);
    } else if parsed == [] {
      DriveIdle(s, e);
    }
  }

  /** The pending messages below `n` that were idle long enough, in stream order. */
  function Stranded(pending: set<nat>, idle: nat -> bool, n: nat): seq<nat> {
    if n == 0 then []
    else Stranded(pending, idle, n - 1) + if n - 1 in pending && idle(n - 1) then [n - 1] else []
  }

  function AtMost(ids: seq<nat>, count: nat): seq<nat> {
    if |ids| <= count then ids else ids[..count]
  }

  /** What is claimed is pending and no message twice. */
  lemma {:induction false} StrandedArePending(pending: set<nat>, idle: nat -> bool, n: nat, count: nat)
    ensures Distinct(AtMost(Stranded(pending, idle, n), count))
    ensures forall id :: id in Stranded(pending, idle, n) <==> id < n && id in pending && idle(id)
    ensures IdSet(AtMost(Stranded(pending, idle, n), count)) <= pending
  {
    if n > 0 {
      StrandedArePending(pending, idle, n - 1, |Stranded(pending, idle, n - 1)|);
    }
  }

  /** They are the first of those, at most `count`, in stream order. */
  lemma {:induction false} StrandedInOrder(pending: set<nat>, idle: nat -> bool, n: nat, count: nat)
    ensures var all, claimed := Stranded(pending, idle, n), AtMost(Stranded(pending, idle, n), count);
            && claimed <= all && (claimed == all || |claimed| == count) && |claimed| <= count
            && forall i, j :: 0 <= i < j < |all| ==> all[i] < all[j]
  {
    if n > 0 {
      StrandedInOrder(pending, idle, n - 1, count);
      StrandedArePending(pending, idle, n - 1, count);
      var before := Stranded(pending, idle, n - 1);
      forall i | 0 <= i < |before| ensures before[i] < n - 1 { assert before[i] in before; }
    }
  }

  // --- the worker ------------------------------------------------------------------------------

  class Worker {
    const conn: Connection
    var stream: seq<Payload>
    var delivered: nat
    var pending: set<nat>
    var acked: set<nat>
    var retries: map<nat, nat>
    var dlq: set<nat>
    ghost var failures: map<nat, nat>
    ghost var dlqLost: set<nat>
    ghost var history: seq<Commit>

    constructor (s: Store, conn: Connection)
      requires conn.Contents() == s.db
      ensures this.conn == conn && Contents() == s
    {
      this.conn := conn;
      stream, delivered, pending, acked, retries, dlq := s.stream, s.delivered, s.pending, s.acked, s.retries, s.dlq;
      failures, dlqLost, history := s.failures, s.dlqLost, s.history;
    }

    ghost function Contents(): Store
      reads this, conn
    {
      Store(stream, delivered, pending, acked, retries, dlq, conn.Contents(), failures, dlqLost, history)
    }

    method XAck(ids: set<nat>)
      modifies this
      ensures Contents() == Acked(old(Contents()), ids)
    {
      acked := acked + ids * pending;
      pending := pending - ids;
    }

    method HDel(ids: set<nat>)
      modifies this
      ensures Contents() == Cleared(old(Contents()), ids)
    {
      retries := retries - ids;
    }

    method HIncrBy(id: nat) returns (count: nat)
      modifies this
      ensures Contents() == Missed(old(Contents()), id) && count == Count(Contents().retries, id)
    {
      count := (if id in retries then retries[id] else 0) + 1;
      retries := retries[id := count];
      failures := failures[id := Count(failures, id) + 1];
    }

    /** `dead_letter` */
    method DeadLetter(id: nat, a: Attempt)
      modifies this
      ensures Contents() == Parked(old(Contents()), id, a)
    {
      if a.outage || id >= |stream| || !stream[id].recordable {
        dlqLost := dlqLost + {id};
      } else {
        dlq := dlq + {id};
      }
      XAck({id});
      HDel({id});
    }

    /** One transaction over the events of `ids`. */
    method Transaction(ids: seq<nat>, a: Attempt) returns (ok: bool)
      modifies this, conn
      ensures ok <==> Transact(old(Contents()), ids, a).Some?
      ensures ok ==> Contents() == Transact(old(Contents()), ids, a).value
      ensures !ok ==> Contents() == old(Contents())
    {
      hide ApplyEvents;
      var events := [];
      for i := 0 to |ids|
        invariant Contents() == old(Contents()) && events == EventsAt(Contents(), ids[..i])
      {
        ghost var done := ids[..i + 1];
        assert done[..|done| - 1] == ids[..i] && done[|done| - 1] == ids[i];
        if ids[i] < |stream| && stream[ids[i]].Parsed? {
          events := events + [stream[ids[i]].event];
        }
      }
      assert ids[..|ids|] == ids;
      ok := conn.Begin(events, a.now, a.prices, a.outage);
      if ok {
        history := history + [Commit(ids, events, a.now, a.prices)];
      }
    }

    /** The per-message fallback. */
    method OneByOne(ids: seq<nat>, e: Env)
      modifies this, conn
      ensures Contents() == Drive(old(Contents()), Alone(ids), e)
    {
      hide Drive, Transact, Parked;
      for i := 0 to |ids|
        invariant Drive(Contents(), Alone(ids[i..]), e) == Drive(old(Contents()), Alone(ids), e)
      {
        DriveAlone(Contents(), ids[i..], e);
        assert ids[i..][1..] == ids[i + 1..];
        var id := ids[i];
        var ok := Transaction([id], e.alone(id));
        if !ok {
          var count := HIncrBy(id);
          if count >= MAX_RETRIES {
            DeadLetter(id, e.letter(id));
          }
          continue;
        }
        XAck({id});
        HDel({id});
      }
      DriveAlone(Contents(), [], e);
      assert ids[|ids|..] == [];
    }

    /** `handle_batch` */
    method HandleBatch(messages: seq<nat>, e: Env)
      modifies this, conn
      ensures Contents() == Handled(old(Contents()), messages, e)
    {
      hide Drive, Transact, Parked;
      var parsed, unparseable := [], [];
      for i := 0 to |messages|
        invariant Contents() == old(Contents())
        invariant parsed == Sift(Contents(), messages[..i], true)
        invariant unparseable == Sift(Contents(), messages[..i], false)
      {
        ghost var done := messages[..i + 1];
        assert done[..|done| - 1] == messages[..i] && done[|done| - 1] == messages[i];
        var id := messages[i];
        if id < |stream| {
          if stream[id].Parsed? { parsed := parsed + [id]; } else { unparseable := unparseable + [id]; }
        }
      }
      assert messages[..|messages|] == messages;

      for i := 0 to |unparseable|
        invariant Drive(Contents(), Parking(unparseable[i..], parsed), e) == Handled(old(Contents()), messages, e)
      {
        DriveParking(Contents(), unparseable[i..], parsed, e);
        assert unparseable[i..][1..] == unparseable[i + 1..];
        DeadLetter(unparseable[i], e.letter(unparseable[i]));
      }
      assert unparseable[|unparseable|..] == [];
      DriveParking(Contents(), [], parsed, e);
      if parsed == [] { return; }

      DriveBatch(Contents(), parsed, e);
      var ok := Transaction(parsed, e.batch);
      if !ok {
        OneByOne(parsed, e);
        return;
      }
      XAck(IdSet(parsed));
      HDel(IdSet(parsed));
    }

    /** `reclaim_stranded`; XAUTOCLAIM may be unavailable. */
    method ReclaimStranded(idle: nat -> bool, available: bool, e: Env) returns (count: nat)
      modifies this, conn
      ensures var claimed := if available then AtMost(Stranded(old(pending), idle, old(delivered)), BATCH_SIZE) else [];
              count == |claimed| && Contents() == Handled(old(Contents()), claimed, e)
    {
      hide Drive, Transact;
      if !available {
        NothingHandled(Contents(), e);
        return 0;
      }
      var messages := [];
      for id := 0 to delivered
        invariant Contents() == old(Contents())
        invariant messages == AtMost(Stranded(pending, idle, id), BATCH_SIZE)
      {
        if id in pending && idle(id) && |messages| < BATCH_SIZE {
          messages := messages + [id];
        }
      }
      if messages != [] {
        HandleBatch(messages, e);
      } else {
        NothingHandled(Contents(), e);
      }
      return |messages|;
    }
  }

  lemma NothingHandled(s: Store, e: Env)
    ensures Handled(s, [], e) == s
  {
  }
}
