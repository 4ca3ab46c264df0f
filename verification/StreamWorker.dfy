/** The ingest worker's consumer loop over a Redis stream with a pending-entries list: batches,
    the per-message fallback, retry counts and the dead-letter queue. A worker may crash
    between any two effects, and several workers share the stream. */
module StreamWorker {
  import opened Tables
  import opened Events
  import opened Pricing
  import opened Ingest
  import opened DbInvariants

  const MAX_RETRIES: nat := 3
  const BATCH_SIZE: nat := 200

  /** A message's data field, as `json.loads` leaves it. It is `recordable` when a dead-letter
      row can hold it. Not recordable are, for example, JSON other than an object, whose fields
      `dead_letter` looks up; U+0000, a lone surrogate, NaN or Infinity anywhere, which JSONB
      refuses; and a project or event id that is not a string. */
  datatype Payload = Parsed(event: Event, recordable: bool) | Unparseable(recordable: bool)

  /** A committed transaction: the messages whose events it applied. */
  datatype Commit = Commit(ids: seq<nat>, events: seq<Event>, now: int, prices: Option<Prices>)

  /** What the workers share. A message's id is its position in the stream; those from
      `delivered` on were not delivered yet. `failures`, `dlqLost` and `history` are records
      for the statements only: individual failures ever seen, dead letters whose write
      failed, and the commits. */
  datatype Store = Store(
    stream: seq<Payload>, delivered: nat, pending: set<nat>, acked: set<nat>,
    retries: map<nat, nat>, dlq: set<nat>, db: Db,
    failures: map<nat, nat>, dlqLost: set<nat>, history: seq<Commit>)

  /** What the outside world decides at one step. */
  datatype Attempt = Attempt(outage: bool, now: int, prices: Option<Prices>)

  /** Where a worker is inside `handle_batch`. */
  datatype Phase =
    | Idle
    | Parking(poison: seq<nat>, parsed: seq<nat>)
    | Batch(ids: seq<nat>)
    | AckBatch(ids: seq<nat>)
    | ClearBatch(ids: seq<nat>)
    | Alone(ids: seq<nat>)
    | AckOne(id: nat, rest: seq<nat>)
    | ClearOne(id: nat, rest: seq<nat>)
    | Failed(id: nat, rest: seq<nat>)
    | Counted(id: nat, count: nat, rest: seq<nat>)
    | Writing(id: nat, next: Phase)   // dead_letter: the row
    | AckDead(id: nat, next: Phase)   // its xack
    | ClearDead(id: nat, next: Phase) // its hdel

  function Count(m: map<nat, nat>, id: nat): nat {
    if id in m then m[id] else 0
  }

  predicate IsParsed(s: Store, id: nat) {
    id < |s.stream| && s.stream[id].Parsed?
  }

  /** The parsed events of the messages `ids`. */
  function EventsAt(s: Store, ids: seq<nat>): seq<Event> {
    if ids == [] then []
    else
      var last := ids[|ids| - 1];
      EventsAt(s, ids[..|ids| - 1]) + if IsParsed(s, last) then [s.stream[last].event] else []
  }

  lemma {:induction false} EventsFit(s: Store, ids: seq<nat>)
    requires forall id :: id in ids ==> IsParsed(s, id)
    ensures |EventsAt(s, ids)| == |ids|
    ensures forall i :: 0 <= i < |ids| ==>
              ids[i] < |s.stream| && s.stream[ids[i]].Parsed? && s.stream[ids[i]].event == EventsAt(s, ids)[i]
  {
    if ids != [] {
      EventsFit(s, ids[..|ids| - 1]);
      assert ids[|ids| - 1] in ids;
    }
  }

  /** The insert of the dead letter fails. */
  predicate LetterFails(s: Store, id: nat, a: Attempt) {
    a.outage || id >= |s.stream| || !s.stream[id].recordable
  }

  function IdSet(ids: seq<nat>): set<nat> {
    set id | id in ids
  }

  /** XACK: only what is pending can be acked. */
  function Acked(s: Store, ids: set<nat>): Store {
    s.(pending := s.pending - ids, acked := s.acked + ids * s.pending)
  }

  function Cleared(s: Store, ids: set<nat>): Store {
    s.(retries := s.retries - ids)
  }

  /** One more individual failure. */
  function Missed(s: Store, id: nat): Store {
    s.(retries := s.retries[id := Count(s.retries, id) + 1], failures := s.failures[id := Count(s.failures, id) + 1])
  }

  /** `async with engine.begin(): apply_events(...)` */
  function Transact(s: Store, ids: seq<nat>, a: Attempt): Option<Store> {
    var r := ApplyEvents(s.db, EventsAt(s, ids), a.now, a.prices);
    if a.outage || r.Err? then None
    else Some(s.(db := r.value, history := s.history + [Commit(ids, EventsAt(s, ids), a.now, a.prices)]))
  }

  /** It commits exactly if the database is there and `apply_events` succeeds on the parsed ones
      among the messages, in the order given; and then the tables are what that leaves, and nothing
      else has changed. */
  lemma {:induction false} TransactWrittenOut(s: Store, ids: seq<nat>, a: Attempt) returns (events: seq<Event>)
    requires forall id :: id in ids ==> IsParsed(s, id)
    ensures |events| == |ids| && forall i :: 0 <= i < |ids| ==>
              ids[i] < |s.stream| && s.stream[ids[i]].Parsed? && events[i] == s.stream[ids[i]].event
    ensures var r := ApplyEvents(s.db, events, a.now, a.prices);
            && (Transact(s, ids, a).Some? <==> !a.outage && r.Ok?)
            && (Transact(s, ids, a).Some? ==>
                  var t := Transact(s, ids, a).value;
                  t == s.(db := r.value, history := t.history) &&
                  t.history == s.history + [Commit(ids, events, a.now, a.prices)])
  {
    hide ApplyEvents;
    EventsFit(s, ids);
    events := EventsAt(s, ids);
  }

  /** The dead letter's own transaction. */
  function Lettered(s: Store, id: nat, a: Attempt): Store {
    if LetterFails(s, id, a) then s.(dlqLost := s.dlqLost + {id}) else s.(dlq := s.dlq + {id})
  }

  /** One effect of a worker in `handle_batch`. */
  function Step(s: Store, p: Phase, a: Attempt): (Store, Phase) {
    match p
    case Idle => (s, Idle)
    case Parking(poison, parsed) =>
      (s, if poison != [] then Writing(poison[0], Parking(poison[1..], parsed))
          else if parsed != [] then Phase.Batch(parsed) else Idle)
    case Batch(ids) =>
      var r := Transact(s, ids, a);
      if r.Some? then (r.value, AckBatch(ids)) else (s, Alone(ids))
    case AckBatch(ids) => (Acked(s, IdSet(ids)), ClearBatch(ids))
    case ClearBatch(ids) => (Cleared(s, IdSet(ids)), Idle)
    case Alone(ids) =>
      if ids == [] then (s, Idle)
      else
        var r := Transact(s, [ids[0]], a);
        if r.Some? then (r.value, AckOne(ids[0], ids[1..])) else (s, Failed(ids[0], ids[1..]))
    case AckOne(id, rest) => (Acked(s, {id}), ClearOne(id, rest))
    case ClearOne(id, rest) => (Cleared(s, {id}), Alone(rest))
    case Failed(id, rest) =>
      (Missed(s, id), Counted(id, Count(s.retries, id) + 1, rest))
    case Counted(id, count, rest) =>
      (s, if count >= MAX_RETRIES then Writing(id, Alone(rest)) else Alone(rest))
    case Writing(id, next) =>
      (Lettered(s, id, a), AckDead(id, next))
    case AckDead(id, next) => (Acked(s, {id}), ClearDead(id, next))
    case ClearDead(id, next) => (Cleared(s, {id}), next)
  }

  // --- what holds of a worker's phase ------------------------------------------------------

  ghost predicate InSomeCommit(history: seq<Commit>, id: nat) {
    exists c :: c in history && id in c.ids
  }

  predicate AllParsed(s: Store, ids: seq<nat>) {
    forall id :: id in ids ==> id < s.delivered && IsParsed(s, id)
  }

  ghost predicate AllCommitted(s: Store, ids: seq<nat>) {
    forall id :: id in ids ==> InSomeCommit(s.history, id)
  }

  /** `dead_letter` is due: the message cannot be parsed, or failed alone often enough. */
  predicate Hopeless(s: Store, id: nat) {
    id < s.delivered && id < |s.stream| && (s.stream[id].Unparseable? || Count(s.failures, id) >= MAX_RETRIES)
  }

  ghost predicate Sound(s: Store, p: Phase) {
    match p
    case Idle => true
    case Parking(poison, parsed) =>
      AllParsed(s, parsed) && forall id :: id in poison ==> id < s.delivered && id < |s.stream| && s.stream[id].Unparseable?
    case Batch(ids) => AllParsed(s, ids)
    case AckBatch(ids) => AllCommitted(s, ids)
    case ClearBatch(ids) => true
    case Alone(ids) => AllParsed(s, ids)
    case AckOne(id, rest) => AllParsed(s, rest) && InSomeCommit(s.history, id)
    case ClearOne(id, rest) => AllParsed(s, rest)
    case Failed(id, rest) => AllParsed(s, [id] + rest)
    case Counted(id, count, rest) => AllParsed(s, [id] + rest) && count <= Count(s.failures, id)
    case Writing(id, next) => Hopeless(s, id) && Sound(s, next)
    case AckDead(id, next) => id in s.dlq + s.dlqLost && Sound(s, next)
    case ClearDead(id, next) => Sound(s, next)
  }

  predicate CommitFits(stream: seq<Payload>, c: Commit) {
    |c.ids| == |c.events| &&
    forall i :: 0 <= i < |c.ids| ==>
      c.ids[i] < |stream| && stream[c.ids[i]].Parsed? && stream[c.ids[i]].event == c.events[i]
  }

  function ActionsOf(history: seq<Commit>): seq<Action> {
    if history == [] then []
    else
      var c := history[|history| - 1];
      ActionsOf(history[..|history| - 1]) + [Action.Batch(c.events, c.now, c.prices, false)]
  }

  ghost predicate Kept(s: Store) {
    && s.delivered <= |s.stream|
    && s.pending !! s.acked
    && (forall id: nat :: id < s.delivered <==> id in s.pending || id in s.acked)
    && (forall id :: id in s.acked ==> InSomeCommit(s.history, id) || id in s.dlq + s.dlqLost)
    && (forall id :: id in s.dlq + s.dlqLost ==> Hopeless(s, id))
    && (forall id :: Count(s.retries, id) <= Count(s.failures, id))
    && (forall c :: c in s.history ==> CommitFits(s.stream, c))
    && s.db == RunActions(EMPTY, ActionsOf(s.history))
  }

  /** Nothing a phase relies on is ever taken back. */
  ghost predicate Grows(s: Store, t: Store) {
    && s.stream <= t.stream && s.delivered <= t.delivered
    && s.dlq + s.dlqLost <= t.dlq + t.dlqLost && s.history <= t.history
    && forall id :: Count(s.failures, id) <= Count(t.failures, id)
  }

  lemma {:induction false} StillSound(s: Store, t: Store, p: Phase)
    requires Grows(s, t) && Sound(s, p)
    ensures Sound(t, p)
  {
    match p
    case Writing(id, next) => StillSound(s, t, next);
    case AckDead(id, next) => StillSound(s, t, next);
    case ClearDead(id, next) => StillSound(s, t, next);
    case _ =>
  }

  lemma ActionsSnoc(history: seq<Commit>, c: Commit)
    ensures ActionsOf(history + [c]) == ActionsOf(history) + [Action.Batch(c.events, c.now, c.prices, false)]
  {
    assert (history + [c])[..|history|] == history;
  }

  lemma TransactKept(s: Store, ids: seq<nat>, a: Attempt)
    requires Kept(s) && AllParsed(s, ids) && Transact(s, ids, a).Some?
    ensures Kept(Transact(s, ids, a).value) && AllCommitted(Transact(s, ids, a).value, ids)
    ensures Grows(s, Transact(s, ids, a).value)
  {
    hide ApplyEvents, EventsAt, ActionsOf;
    var t := Transact(s, ids, a).value;
    EventsFit(s, ids);
    var c := Commit(ids, EventsAt(s, ids), a.now, a.prices);
    assert CommitFits(s.stream, c);
    hide CommitFits;
    ActionsSnoc(s.history, c);
    var action := Action.Batch(c.events, c.now, c.prices, false);
    assert (ActionsOf(s.history) + [action])[..|ActionsOf(s.history)|] == ActionsOf(s.history);
    assert forall d :: d in s.history ==> d in t.history;
    assert c in t.history;
  }

  lemma StepGrows(s: Store, p: Phase, a: Attempt)
    requires Kept(s) && Sound(s, p)
    ensures Grows(s, Step(s, p, a).0)
  {
    hide ApplyEvents, Transact, RunActions, ActionsOf, CommitFits, Kept;
    match p
    case Batch(ids) => if Transact(s, ids, a).Some? { TransactKept(s, ids, a); }
    case Alone(ids) =>
      if ids != [] && Transact(s, [ids[0]], a).Some? {
        assert ids[0] in ids;
        TransactKept(s, [ids[0]], a);
      }
    case _ =>
  }

  lemma AloneSound(s: Store, ids: seq<nat>, a: Attempt)
    requires Kept(s) && Sound(s, Alone(ids)) && ids != []
    ensures Sound(Step(s, Alone(ids), a).0, Step(s, Alone(ids), a).1)
  {
    hide Transact, Kept, Grows;
    var id, rest := ids[0], ids[1..];
    assert ids == [id] + rest;
    assert id in ids && forall x :: x in rest ==> x in ids;
    assert Sound(s, Alone(rest)) && AllParsed(s, [id]);
    StepGrows(s, Alone(ids), a);
    StillSound(s, Step(s, Alone(ids), a).0, Alone(rest));
    if Transact(s, [id], a).Some? { TransactKept(s, [id], a); }
  }

  lemma ParkingSound(s: Store, poison: seq<nat>, parsed: seq<nat>)
    requires Sound(s, Parking(poison, parsed)) && poison != []
    ensures Sound(s, Writing(poison[0], Parking(poison[1..], parsed)))
  {
    assert forall id :: id in poison[1..] ==> id in poison;
    assert Sound(s, Parking(poison[1..], parsed)) && poison[0] in poison;
  }

  lemma CountedSound(s: Store, id: nat, count: nat, rest: seq<nat>, a: Attempt)
    requires Sound(s, Counted(id, count, rest))
    ensures Sound(s, Step(s, Counted(id, count, rest), a).1)
  {
    assert forall x :: x in rest ==> x in [id] + rest;
    assert id in [id] + rest && Sound(s, Alone(rest));
  }

  lemma KeptCounts(s: Store, id: nat)
    requires Kept(s)
    ensures Count(s.retries, id) <= Count(s.failures, id)
  {
  }

  lemma FailedSound(s: Store, id: nat, rest: seq<nat>)
    requires Count(s.retries, id) <= Count(s.failures, id) && Sound(s, Failed(id, rest))
    ensures Sound(Missed(s, id), Counted(id, Count(s.retries, id) + 1, rest))
  {
    var t := Missed(s, id);
    assert Count(t.failures, id) == Count(s.failures, id) + 1;
    forall x | x in [id] + rest ensures x < t.delivered && IsParsed(t, x) {
      assert IsParsed(s, x);
    }
  }

  /** The phase a worker steps into relies only on what holds. */
  lemma StepSound(s: Store, p: Phase, a: Attempt)
    requires Kept(s) && Sound(s, p)
    ensures Sound(Step(s, p, a).0, Step(s, p, a).1)
  {
    hide Transact, Kept, Grows, Acked, Cleared, Lettered, Missed;
    var t := Step(s, p, a).0;
    StepGrows(s, p, a);
    match p
    case Parking(poison, parsed) => if poison != [] { ParkingSound(s, poison, parsed); }
    case Batch(ids) => if Transact(s, ids, a).Some? { TransactKept(s, ids, a); }
    case Alone(ids) => if ids != [] { AloneSound(s, ids, a); }
    case AckOne(id, rest) => StillSound(s, t, Alone(rest));
    case ClearOne(id, rest) => StillSound(s, t, Alone(rest));
    case Failed(id, rest) =>
      KeptCounts(s, id);
      FailedSound(s, id, rest);
    case Counted(id, count, rest) => CountedSound(s, id, count, rest, a);
    case Writing(id, next) =>
      StillSound(s, t, next);
      LetterRecorded(s, id, a);
    case AckDead(id, next) => StillSound(s, t, next);
    case ClearDead(id, next) => StillSound(s, t, next);
    case _ =>
  }

  lemma LetterRecorded(s: Store, id: nat, a: Attempt)
    ensures id in Lettered(s, id, a).dlq + Lettered(s, id, a).dlqLost
  {
  }

  lemma AckKept(s: Store, ids: set<nat>)
    requires Kept(s) && forall id :: id in ids ==> InSomeCommit(s.history, id) || id in s.dlq + s.dlqLost
    ensures Kept(Acked(s, ids))
  {
    hide CommitFits, RunActions, ActionsOf, InSomeCommit;
    var t := Acked(s, ids);
    forall id: nat ensures id < t.delivered <==> id in t.pending || id in t.acked {}
  }

  lemma ClearKept(s: Store, ids: set<nat>)
    requires Kept(s)
    ensures Kept(Cleared(s, ids))
  {
    var t := Cleared(s, ids);
    forall x | x in t.dlq + t.dlqLost ensures Hopeless(t, x) {
      assert Hopeless(s, x);
    }
  }

  lemma MissedKept(s: Store, id: nat)
    requires Kept(s)
    ensures Kept(Missed(s, id))
  {
    hide CommitFits, RunActions, ActionsOf, InSomeCommit;
    var t := Missed(s, id);
    forall x ensures Count(t.retries, x) <= Count(t.failures, x) {
      assert Count(s.retries, x) <= Count(s.failures, x);
    }
    forall x | x in t.dlq + t.dlqLost ensures Hopeless(t, x) {
      assert Hopeless(s, x);
    }
  }

  lemma LetterKept(s: Store, id: nat, a: Attempt)
    requires Kept(s) && Hopeless(s, id)
    ensures Kept(Lettered(s, id, a))
  {
    var t := Lettered(s, id, a);
    forall x | x in t.dlq + t.dlqLost ensures Hopeless(t, x) {
      assert Hopeless(s, x);
    }
  }

  /** Every effect keeps the invariant. */
  lemma StepKept(s: Store, p: Phase, a: Attempt)
    requires Kept(s) && Sound(s, p)
    ensures Kept(Step(s, p, a).0)
  {
    hide Kept, Transact, Acked, Cleared;
    match p
    case Batch(ids) => if Transact(s, ids, a).Some? { TransactKept(s, ids, a); }
    case Alone(ids) =>
      if ids != [] && Transact(s, [ids[0]], a).Some? {
        assert ids[0] in ids;
        TransactKept(s, [ids[0]], a);
      }
    case AckBatch(ids) => AckKept(s, IdSet(ids));
    case AckOne(id, rest) => AckKept(s, {id});
    case AckDead(id, next) => AckKept(s, {id});
    case ClearBatch(ids) => ClearKept(s, IdSet(ids));
    case ClearOne(id, rest) => ClearKept(s, {id});
    case ClearDead(id, next) => ClearKept(s, {id});
    case Failed(id, rest) => MissedKept(s, id);
    case Writing(id, next) => LetterKept(s, id, a);
    case _ =>
  }

  // --- several workers on one stream ------------------------------------------------------------

  datatype System = System(store: Store, workers: map<string, Phase>)

  datatype Move =
    | Produce(payload: Payload)
    | Read(w: string, n: nat)          // XREADGROUP ... COUNT n
    | Claim(w: string, ids: seq<nat>)  // XAUTOCLAIM hands over some stranded messages
    | Work(w: string, a: Attempt)      // one effect of `handle_batch`
    | Crash(w: string)

  const START: System := System(Store([], 0, {}, {}, map[], {}, EMPTY, map[], {}, []), map[])

  /** The ids among `ids` whose payload parses, or does not, in stream order. */
  function Sift(s: Store, ids: seq<nat>, parsed: bool): seq<nat> {
    if ids == [] then []
    else
      var last := ids[|ids| - 1];
      Sift(s, ids[..|ids| - 1], parsed) + if last < |s.stream| && s.stream[last].Parsed? == parsed then [last] else []
  }

  lemma {:induction false} InSift(s: Store, ids: seq<nat>, parsed: bool, id: nat)
    ensures id in Sift(s, ids, parsed) <==> id in ids && id < |s.stream| && s.stream[id].Parsed? == parsed
  {
    if ids != [] {
      InSift(s, ids[..|ids| - 1], parsed, id);
      assert ids == ids[..|ids| - 1] + [ids[|ids| - 1]];
    }
  }

  /** `handle_batch(messages)` begins. */
  function Start(s: Store, ids: seq<nat>): Phase {
    Parking(Sift(s, ids, false), Sift(s, ids, true))
  }

  lemma StartSound(s: Store, ids: seq<nat>)
    requires s.delivered <= |s.stream| && forall id :: id in ids ==> id < s.delivered
    ensures Sound(s, Start(s, ids))
  {
    forall id: nat
      ensures id in Sift(s, ids, true) <==> id in ids && id < |s.stream| && s.stream[id].Parsed?
      ensures id in Sift(s, ids, false) <==> id in ids && id < |s.stream| && !s.stream[id].Parsed?
    {
      InSift(s, ids, true, id);
      InSift(s, ids, false, id);
    }
  }

  /** The next messages, at most a batch. */
  function Fresh(s: Store, n: nat): seq<nat> {
    var room := if s.delivered <= |s.stream| then |s.stream| - s.delivered else 0;
    var n := if n < BATCH_SIZE then n else BATCH_SIZE;
    seq(if n < room then n else room, i requires 0 <= i => s.delivered + i)
  }

  predicate Distinct(ids: seq<nat>) {
    forall i, j :: 0 <= i < j < |ids| ==> ids[i] != ids[j]
  }

  predicate IsIdle(sys: System, w: string) {
    w in sys.workers ==> sys.workers[w] == Idle
  }

  ghost predicate SystemKept(sys: System) {
    Kept(sys.store) && forall w :: w in sys.workers ==> Sound(sys.store, sys.workers[w])
  }

  /** They follow the last delivered one, in stream order, and are as many as asked for, up to a
      batch and to the end of the stream. */
  lemma FreshAreNext(s: Store, n: nat)
    requires s.delivered <= |s.stream|
    ensures var ids := Fresh(s, n);
            && (forall i :: 0 <= i < |ids| ==> ids[i] == s.delivered + i)
            && |ids| <= n && |ids| <= BATCH_SIZE && s.delivered + |ids| <= |s.stream|
            && (|ids| == n || |ids| == BATCH_SIZE || s.delivered + |ids| == |s.stream|)
  {
  }

  /** Delivery puts the next messages on the pending-entries list. */
  function Delivered(s: Store, ids: seq<nat>): Store {
    s.(delivered := s.delivered + |ids|, pending := s.pending + IdSet(ids))
  }

  function Next(sys: System, m: Move): System {
    var s := sys.store;
    match m
    case Produce(payload) => sys.(store := s.(stream := s.stream + [payload]))
    case Read(w, n) =>
      if !IsIdle(sys, w) then sys
      else
        var ids := Fresh(s, n);
        System(Delivered(s, ids), sys.workers[w := Start(s, ids)])
    case Claim(w, ids) =>
      if !IsIdle(sys, w) || !(IdSet(ids) <= s.pending) || !Distinct(ids) then sys
      else sys.(workers := sys.workers[w := Start(s, ids)])
    case Work(w, a) =>
      if w !in sys.workers then sys
      else
        var (t, q) := Step(s, sys.workers[w], a);
        System(t, sys.workers[w := q])
    case Crash(w) => sys.(workers := sys.workers - {w})
  }

  lemma OthersSound(sys: System, t: Store, w: string, q: Phase)
    requires SystemKept(sys) && Kept(t) && Grows(sys.store, t) && Sound(t, q)
    ensures SystemKept(System(t, sys.workers[w := q]))
  {
    forall v | v in sys.workers ensures Sound(t, sys.workers[v]) {
      StillSound(sys.store, t, sys.workers[v]);
    }
  }

  lemma DeliveredKept(s: Store, ids: seq<nat>)
    requires Kept(s) && s.delivered + |ids| <= |s.stream|
    requires forall i :: 0 <= i < |ids| ==> ids[i] == s.delivered + i
    ensures Kept(Delivered(s, ids)) && Grows(s, Delivered(s, ids))
    ensures forall id :: id in ids ==> id < s.delivered + |ids|
  {
    hide RunActions, ActionsOf, CommitFits, InSomeCommit;
    var t := Delivered(s, ids);
    forall id: nat ensures id in IdSet(ids) <==> s.delivered <= id < t.delivered {
      if s.delivered <= id < t.delivered {
        assert ids[id - s.delivered] in ids;
      }
    }
    forall id | id in t.dlq + t.dlqLost ensures Hopeless(t, id) {
      assert Hopeless(s, id);
    }
  }

  lemma ProducedKept(s: Store, payload: Payload)
    requires Kept(s)
    ensures var t := s.(stream := s.stream + [payload]); Kept(t) && Grows(s, t)
  {
    var t := s.(stream := s.stream + [payload]);
    forall id | id in t.dlq + t.dlqLost ensures Hopeless(t, id) {
      assert Hopeless(s, id);
    }
    forall c | c in t.history ensures CommitFits(t.stream, c) {
      assert CommitFits(s.stream, c);
    }
  }

  lemma NextKept(sys: System, m: Move)
    requires SystemKept(sys)
    ensures SystemKept(Next(sys, m))
  {
    hide Kept, Grows, Step, Start, Delivered;
    var s := sys.store;
    match m
    case Produce(payload) =>
      ProducedKept(s, payload);
      forall v | v in sys.workers ensures Sound(s.(stream := s.stream + [payload]), sys.workers[v]) {
        StillSound(s, s.(stream := s.stream + [payload]), sys.workers[v]);
      }
    case Read(w, n) =>
      if IsIdle(sys, w) {
        assert s.delivered <= |s.stream| by { KeptFacts(s); }
        var ids := Fresh(s, n);
        DeliveredKept(s, ids);
        DeliveredStart(s, ids);
        OthersSound(sys, Delivered(s, ids), w, Start(s, ids));
      }
    case Claim(w, ids) =>
      if IsIdle(sys, w) && IdSet(ids) <= s.pending && Distinct(ids) {
        KeptFacts(s);
        assert forall id :: id in ids ==> id in IdSet(ids);
        StartSound(s, ids);
        OthersSound(sys, s, w, Start(s, ids));
      }
    case Work(w, a) =>
      if w in sys.workers {
        var p := sys.workers[w];
        StepKept(s, p, a);
        StepGrows(s, p, a);
        StepSound(s, p, a);
        OthersSound(sys, Step(s, p, a).0, w, Step(s, p, a).1);
      }
    case Crash(w) =>
  }

  lemma KeptFacts(s: Store)
    requires Kept(s)
    ensures s.delivered <= |s.stream| && Grows(s, s)
    ensures forall id: nat :: id in s.pending ==> id < s.delivered
  {
  }

  lemma DeliveredStart(s: Store, ids: seq<nat>)
    requires s.delivered + |ids| <= |s.stream| && forall id :: id in ids ==> id < s.delivered + |ids|
    ensures Sound(Delivered(s, ids), Start(s, ids))
  {
    StartSound(Delivered(s, ids), ids);
    SameSift(s, Delivered(s, ids), ids, true);
    SameSift(s, Delivered(s, ids), ids, false);
  }

  lemma {:induction false} SameSift(s: Store, t: Store, ids: seq<nat>, parsed: bool)
    requires s.stream == t.stream
    ensures Sift(s, ids, parsed) == Sift(t, ids, parsed)
  {
    if ids != [] {
      SameSift(s, t, ids[..|ids| - 1], parsed);
    }
  }

  lemma StartKept()
    ensures SystemKept(START)
  {
  }

  /** A run: any interleaving of deliveries, claims, effects and crashes. */
  function RunMoves(moves: seq<Move>): System {
    if moves == [] then START
    else Next(RunMoves(moves[..|moves| - 1]), moves[|moves| - 1])
  }

  lemma {:induction false} RunKept(moves: seq<Move>)
    ensures SystemKept(RunMoves(moves))
  {
    hide SystemKept, Next;
    if moves == [] {
      StartKept();
    } else {
      RunKept(moves[..|moves| - 1]);
      NextKept(RunMoves(moves[..|moves| - 1]), moves[|moves| - 1]);
    }
  }

  predicate ExactlyOne(a: bool, b: bool, c: bool) {
    (a && !b && !c) || (!a && b && !c) || (!a && !b && c)
  }

  /** No message is acked silently, over every run. */
  lemma NoSilentAck(moves: seq<Move>)
    ensures var s := RunMoves(moves).store;
            && (forall id: nat :: id < |s.stream| ==> ExactlyOne(id >= s.delivered, id in s.pending, id in s.acked))
            && (forall id :: id in s.acked ==> InSomeCommit(s.history, id) || id in s.dlq + s.dlqLost)
            && (forall id :: id in s.dlq + s.dlqLost ==> Hopeless(s, id))
  {
    hide RunMoves;
    RunKept(moves);
  }

  /** The tables are what the committed batches make of them, in commit order; so what every
      run of batches keeps holds of them. */
  lemma TablesAreCommits(moves: seq<Move>)
    ensures var s := RunMoves(moves).store;
            && s.db == RunActions(EMPTY, ActionsOf(s.history))
            && (forall c :: c in s.history ==> CommitFits(s.stream, c))
            && Referential(s.db) && ClientCostsKept(s.db.observations)
  {
    hide RunMoves, Referential, ClientCostsKept, RunActions;
    RunKept(moves);
    var s := RunMoves(moves).store;
    EveryObservationHasItsTrace(ActionsOf(s.history));
    ClientCostNeverOverwritten(ActionsOf(s.history));
  }

  lemma RunSnoc(moves: seq<Move>, m: Move)
    ensures RunMoves(moves + [m]) == Next(RunMoves(moves), m)
  {
    assert (moves + [m])[..|moves|] == moves;
  }

  // --- when an acked message is lost ------------------------------------------------------------

  /** Move `m` tries to write the dead letter of `id`; the write fails or does not. */
  predicate TriesLetter(sys: System, m: Move, id: nat, fails: bool) {
    && m.Work? && m.w in sys.workers && sys.workers[m.w].Writing? && sys.workers[m.w].id == id
    && LetterFails(sys.store, id, m.a) == fails
  }

  ghost predicate LetterTried(moves: seq<Move>, id: nat, fails: bool) {
    exists i :: 0 <= i < |moves| && TriesLetter(RunMoves(moves[..i]), moves[i], id, fails)
  }

  lemma LetterTriedSnoc(moves: seq<Move>, m: Move, id: nat, fails: bool)
    ensures LetterTried(moves + [m], id, fails) <==> LetterTried(moves, id, fails) || TriesLetter(RunMoves(moves), m, id, fails)
  {
    hide RunMoves, TriesLetter;
    var all := moves + [m];
    assert all[..|moves|] == moves && all[|moves|] == m;
    forall i | 0 <= i < |moves| ensures all[..i] == moves[..i] && all[i] == moves[i] {}
    if LetterTried(moves, id, fails) {
      var i :| 0 <= i < |moves| && TriesLetter(RunMoves(moves[..i]), moves[i], id, fails);
      assert TriesLetter(RunMoves(all[..i]), all[i], id, fails);
    }
    if TriesLetter(RunMoves(moves), m, id, fails) {
      assert TriesLetter(RunMoves(all[..|moves|]), all[|moves|], id, fails);
    }
  }

  lemma NextLetters(sys: System, m: Move, id: nat)
    ensures id in Next(sys, m).store.dlqLost <==> id in sys.store.dlqLost || TriesLetter(sys, m, id, true)
    ensures id in Next(sys, m).store.dlq <==> id in sys.store.dlq || TriesLetter(sys, m, id, false)
  {
    hide ApplyEvents, EventsAt, Start, Fresh;
  }

  /** The two records are what the moves say. */
  lemma {:induction false} LettersAsTried(moves: seq<Move>, id: nat)
    ensures id in RunMoves(moves).store.dlqLost <==> LetterTried(moves, id, true)
    ensures id in RunMoves(moves).store.dlq <==> LetterTried(moves, id, false)
  {
    hide Next, TriesLetter;
    if moves != [] {
      var n := |moves| - 1;
      var before := moves[..n];
      assert moves == before + [moves[n]];
      LettersAsTried(before, id);
      NextLetters(RunMoves(before), moves[n], id);
      LetterTriedSnoc(before, moves[n], id, true);
      LetterTriedSnoc(before, moves[n], id, false);
    }
  }

  /** In no table and in no dead-letter queue. */
  ghost predicate Lost(s: Store, id: nat) {
    !InSomeCommit(s.history, id) && id !in s.dlq
  }

  /** An acked message that no commit has is in the queue, unless a write of its dead letter
      failed and none succeeded: there is no other way to lose one. */
  lemma LostAsTried(moves: seq<Move>, id: nat)
    requires id in RunMoves(moves).store.acked
    ensures Lost(RunMoves(moves).store, id) <==>
            LetterTried(moves, id, true) && !LetterTried(moves, id, false) &&
            !InSomeCommit(RunMoves(moves).store.history, id)
  {
    hide RunMoves, LetterTried;
    NoSilentAck(moves);
    LettersAsTried(moves, id);
  }

  /** If no dead letter's write fails, every acked message is in the tables or in the queue. */
  lemma NothingLost(moves: seq<Move>)
    requires forall id :: !LetterTried(moves, id, true)
    ensures forall id :: id in RunMoves(moves).store.acked ==> !Lost(RunMoves(moves).store, id)
  {
    hide RunMoves, LetterTried;
    forall id | id in RunMoves(moves).store.acked ensures !Lost(RunMoves(moves).store, id) {
      LostAsTried(moves, id);
    }
  }

  /** All payloads can be recorded and the database never fails. */
  ghost predicate NeverFails(moves: seq<Move>) {
    forall i :: 0 <= i < |moves| ==>
      (moves[i].Produce? ==> moves[i].payload.recordable) && (moves[i].Work? ==> !moves[i].a.outage)
  }

  lemma {:induction false} AllRecordable(moves: seq<Move>)
    requires NeverFails(moves)
    ensures forall id: nat :: id < |RunMoves(moves).store.stream| ==> RunMoves(moves).store.stream[id].recordable
  {
    hide Next;
    if moves != [] {
      var n := |moves| - 1;
      assert forall i :: 0 <= i < n ==> moves[..n][i] == moves[i];
      AllRecordable(moves[..n]);
      SameStream(RunMoves(moves[..n]), moves[n]);
    }
  }

  lemma SameStream(sys: System, m: Move)
    ensures Next(sys, m).store.stream ==
            if m.Produce? then sys.store.stream + [m.payload] else sys.store.stream
  {
    hide ApplyEvents, EventsAt, Start, Fresh;
  }

  lemma LetterSucceeds(sys: System, m: Move, id: nat)
    requires SystemKept(sys) && (m.Work? ==> !m.a.outage)
    requires forall x: nat :: x < |sys.store.stream| ==> sys.store.stream[x].recordable
    ensures !TriesLetter(sys, m, id, true)
  {
    hide Kept;
    assert m.Work? && m.w in sys.workers ==> Sound(sys.store, sys.workers[m.w]);
  }

  /** With recordable payloads and no outage, no write fails. */
  lemma NeverFailsNothingLost(moves: seq<Move>)
    requires NeverFails(moves)
    ensures forall id :: id in RunMoves(moves).store.acked ==> !Lost(RunMoves(moves).store, id)
  {
    hide RunMoves, TriesLetter, SystemKept, Lost;
    forall i, id | 0 <= i < |moves| ensures !TriesLetter(RunMoves(moves[..i]), moves[i], id, true) {
      assert forall j :: 0 <= j < i ==> moves[..i][j] == moves[j];
      AllRecordable(moves[..i]);
      RunKept(moves[..i]);
      LetterSucceeds(RunMoves(moves[..i]), moves[i], id);
    }
    NothingLost(moves);
  }

  /** The exact condition, where the loss happens: about to write the dead letter of a message
      that is neither committed nor in the queue, a worker's next two effects ack it, and it is
      lost if and only if the write fails. */
  lemma LostIffLetterFails(moves: seq<Move>, w: string, a: Attempt, b: Attempt)
    requires w in RunMoves(moves).workers && RunMoves(moves).workers[w].Writing?
    requires Lost(RunMoves(moves).store, RunMoves(moves).workers[w].id)
    ensures var s, t, id := RunMoves(moves).store, RunMoves(moves + [Work(w, a)] + [Work(w, b)]).store, RunMoves(moves).workers[w].id;
            id in t.acked && (Lost(t, id) <==> LetterFails(s, id, a))
  {
    hide RunMoves;
    RunKept(moves);
    var sys := RunMoves(moves);
    assert Sound(sys.store, sys.workers[w]);
    RunSnoc(moves, Work(w, a));
    RunSnoc(moves + [Work(w, a)], Work(w, b));
  }
}
