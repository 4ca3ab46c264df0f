/** Where jobs and scores come from: each is what some judge's answer calls for. */
module Verdicts {
  import opened Tables
  import opened Evaluations

  /** Converting the score raises: the judge failed, or `float` was given what it cannot read. */
  predicate Raises(dataType: DataType, verdict: Option<Answer>) {
    verdict.None? ||
    (dataType.NUMERIC? && (verdict.value.Other? || (verdict.value.Words? && verdict.value.read.None?)))
  }

  /** The answer counts as yes: true, 1, "true" or "1". */
  predicate Yes(a: Answer) {
    a == Truth(true) || (a.Number? && a.value == 1.0) || (a.Words? && (a.text == "true" || a.text == "1"))
  }

  /** The answer's text, as Python shows it. */
  predicate ShownAs(a: Answer, text: string) {
    && (a.Number? ==> text == a.shown) && (a.Other? ==> text == a.shown) && (a.Words? ==> text == a.text)
    && (a == Truth(true) ==> text == "True") && (a == Truth(false) ==> text == "False")
  }

  /** What the answer is worth under the data type. */
  predicate MarkIs(dataType: DataType, a: Answer, mark: Mark) {
    && (dataType.CATEGORICAL? ==> mark.Category? && ShownAs(a, mark.text))
    && (dataType.BOOLEAN? ==> mark == Value(if Yes(a) then 1.0 else 0.0))
    && (dataType.NUMERIC? ==>
          && (a.Number? ==> mark == Value(a.value))
          && (a.Words? ==> a.read.Some? && mark == Value(a.read.value))
          && (a == Truth(true) ==> mark == Value(1.0)) && (a == Truth(false) ==> mark == Value(0.0))
          && !a.Other?)
  }

  function ScoreKey(k: Key): Key {
    Key(k.project, k.id + ":score")
  }

  /** Job `k` and its score say what the verdict of its judging step calls for. */
  predicate AsJudged(rows: Rows, k: Key, p: Phase, verdict: Option<Answer>)
    requires p.Judging?
  {
    && k in rows.jobs && rows.jobs[k].trace == p.trace && rows.jobs[k].rule == p.rule.id
    && rows.jobs[k].version == p.rule.version && rows.jobs[k].grant == p.grant
    && if Raises(p.rule.dataType, verdict) then
         rows.jobs[k].status == ERROR && rows.jobs[k].scoreId == None && ScoreKey(k) !in rows.scores
       else
         && rows.jobs[k].status == COMPLETED && rows.jobs[k].scoreId == Some(k.id + ":score")
         && ScoreKey(k) in rows.scores
         && var score := rows.scores[ScoreKey(k)];
            && score.trace == p.trace && score.name == p.rule.scoreName && score.version == p.rule.version
            && score.dataType == p.rule.dataType && MarkIs(p.rule.dataType, verdict.value, score.mark)
  }

  /** The move judges job `k`. */
  predicate Judges(sys: System, x: Move, k: Key) {
    && x.Work? && !x.r.outage && x.w in sys.workers && sys.workers[x.w].Judging?
    && Key(sys.workers[x.w].project, sys.workers[x.w].job) == k
  }

  ghost predicate JudgedAt(moves: seq<Move>, i: nat, rows: Rows, k: Key) {
    && i < |moves| && Judges(Run(moves[..i]), moves[i], k)
    && AsJudged(rows, k, Run(moves[..i]).workers[moves[i].w], moves[i].r.verdict)
  }

  ghost predicate FromVerdict(moves: seq<Move>, rows: Rows, k: Key) {
    exists i: nat :: JudgedAt(moves, i, rows, k)
  }

  ghost predicate AllFrom(moves: seq<Move>, rows: Rows, judging: Option<Key>) {
    forall k :: k in rows.jobs && Some(k) != judging ==> FromVerdict(moves, rows, k)
  }

  function JudgingKey(p: Phase): Option<Key> {
    if p.Judging? then Some(Key(p.project, p.job)) else None
  }

  ghost predicate Accounted(moves: seq<Move>) {
    var sys := Run(moves);
    && AllFrom(moves, sys.store.rows, None)
    && forall w :: w in sys.workers ==> AllFrom(moves, Mine(sys.workers[w]), JudgingKey(sys.workers[w]))
  }

  // --- rows that agree on a job ------------------------------------------------------------------------

  predicate SameJob(a: Rows, b: Rows, k: Key) {
    && k in a.jobs && k in b.jobs && a.jobs[k] == b.jobs[k]
    && (ScoreKey(k) in a.scores <==> ScoreKey(k) in b.scores)
    && (ScoreKey(k) in a.scores ==> a.scores[ScoreKey(k)] == b.scores[ScoreKey(k)])
  }

  lemma SameVerdict(moves: seq<Move>, a: Rows, b: Rows, k: Key)
    requires FromVerdict(moves, a, k) && SameJob(a, b, k)
    ensures FromVerdict(moves, b, k)
  {
    hide Run;
    var i: nat :| JudgedAt(moves, i, a, k);
    assert JudgedAt(moves, i, b, k);
  }

  lemma StillFrom(moves: seq<Move>, x: Move, rows: Rows, judging: Option<Key>)
    requires AllFrom(moves, rows, judging)
    ensures AllFrom(moves + [x], rows, judging)
  {
    hide Run;
    forall k | k in rows.jobs && Some(k) != judging ensures FromVerdict(moves + [x], rows, k) {
      var i: nat :| JudgedAt(moves, i, rows, k);
      assert (moves + [x])[..i] == moves[..i] && (moves + [x])[i] == moves[i];
      assert JudgedAt(moves + [x], i, rows, k);
    }
  }

  lemma ScoreIds(k: Key, l: Key)
    ensures ScoreKey(k) == Key(k.project, ScoreId(k.id))
    ensures ScoreKey(k) == ScoreKey(l) ==> k == l
  {
    if ScoreKey(k) == ScoreKey(l) { OwnScoreId(k.id, l.id); }
  }

  // --- one judging step -----------------------------------------------------------------------------------

  lemma MarkAsAnswered(dataType: DataType, verdict: Option<Answer>)
    ensures Raises(dataType, verdict) <==> verdict.None? || MarkOf(dataType, verdict.value).None?
    ensures !Raises(dataType, verdict) ==> MarkIs(dataType, verdict.value, MarkOf(dataType, verdict.value).value)
  {
  }

  lemma JudgedNow(p: Phase, verdict: Option<Answer>)
    requires p.Judging? && PhaseTidy(p)
    ensures var k := Key(p.project, p.job);
            AsJudged(Judged(p.mine, p.project, p.trace, p.rule, p.job, p.grant, verdict), k, p, verdict)
  {
    hide MarkOf, Raises, MarkIs;
    var k := Key(p.project, p.job);
    MarkAsAnswered(p.rule.dataType, verdict);
    ScoreIds(k, k);
    if ScoreKey(k) in p.mine.scores {
      OwnerIs(p.mine, k);
    }
  }

  lemma OthersSame(p: Phase, verdict: Option<Answer>, l: Key)
    requires p.Judging? && l in p.mine.jobs && l != Key(p.project, p.job)
    ensures SameJob(p.mine, Judged(p.mine, p.project, p.trace, p.rule, p.job, p.grant, verdict), l)
  {
    hide MarkOf;
    ScoreIds(l, Key(p.project, p.job));
    ScoreIds(Key(p.project, p.job), l);
  }

  lemma JudgeAccounted(moves: seq<Move>, x: Move)
    requires Accounted(moves) && Kept(Run(moves)) && x.Work? && x.w in Run(moves).workers
    requires Run(moves).workers[x.w].Judging? && !x.r.outage
    ensures var p := Run(moves).workers[x.w];
            AllFrom(moves + [x], Judged(p.mine, p.project, p.trace, p.rule, p.job, p.grant, x.r.verdict), None)
  {
    hide Run, Judged, FromVerdict, PhaseTidy, AsJudged, SameJob;
    var p := Run(moves).workers[x.w];
    var after := Judged(p.mine, p.project, p.trace, p.rule, p.job, p.grant, x.r.verdict);
    var key := Key(p.project, p.job);
    KeptOf(Run(moves), x.w);
    JudgedHere(moves, x, key);
    assert key in p.mine.jobs by { JudgingHas(p); }
    JudgedKeys(p, x.r.verdict);
    StillFrom(moves, x, p.mine, Some(key));
    forall k | k in after.jobs ensures FromVerdict(moves + [x], after, k) {
      if k != key {
        OthersSame(p, x.r.verdict, k);
        SameVerdict(moves + [x], p.mine, after, k);
      }
    }
  }

  lemma JudgingHas(p: Phase)
    requires p.Judging? && PhaseTidy(p)
    ensures Key(p.project, p.job) in p.mine.jobs
  {
  }

  lemma JudgedKeys(p: Phase, verdict: Option<Answer>)
    requires p.Judging? && Key(p.project, p.job) in p.mine.jobs
    ensures Judged(p.mine, p.project, p.trace, p.rule, p.job, p.grant, verdict).jobs.Keys == p.mine.jobs.Keys
  {
  }

  lemma JudgedHere(moves: seq<Move>, x: Move, key: Key)
    requires Judges(Run(moves), x, key) && PhaseTidy(Run(moves).workers[x.w])
    ensures var p := Run(moves).workers[x.w];
            FromVerdict(moves + [x], Judged(p.mine, p.project, p.trace, p.rule, p.job, p.grant, x.r.verdict), key)
  {
    hide Run, Judged, PhaseTidy, AsJudged;
    var p := Run(moves).workers[x.w];
    JudgedNow(p, x.r.verdict);
    assert (moves + [x])[..|moves|] == moves && (moves + [x])[|moves|] == x;
    assert JudgedAt(moves + [x], |moves|, Judged(p.mine, p.project, p.trace, p.rule, p.job, p.grant, x.r.verdict), key);
  }

  // --- one commit -------------------------------------------------------------------------------------------

  lemma MergedSame(rows: Rows, mine: Rows, k: Key)
    requires Tidy(rows, None) && Tidy(mine, None) && rows.jobs.Keys !! mine.jobs.Keys
    ensures k in rows.jobs ==> SameJob(rows, Merged(rows, mine), k)
    ensures k in mine.jobs ==> SameJob(mine, Merged(rows, mine), k)
  {
    ScoreIds(k, k);
    if k in rows.jobs && ScoreKey(k) in mine.scores { OwnerIs(mine, k); }
    if k in mine.jobs && ScoreKey(k) in rows.scores { OwnerIs(rows, k); }
  }

  lemma MergedFrom(moves: seq<Move>, rows: Rows, mine: Rows)
    requires AllFrom(moves, rows, None) && AllFrom(moves, mine, None)
    requires Tidy(rows, None) && Tidy(mine, None) && rows.jobs.Keys !! mine.jobs.Keys
    ensures AllFrom(moves, Merged(rows, mine), None)
  {
    hide Run, FromVerdict, Tidy, SameJob;
    var all := Merged(rows, mine);
    forall k | k in all.jobs ensures FromVerdict(moves, all, k) {
      MergedSame(rows, mine, k);
      if k in mine.jobs { SameVerdict(moves, mine, all, k); } else { SameVerdict(moves, rows, all, k); }
    }
  }

  // --- runs ---------------------------------------------------------------------------------------------------

  lemma NoneFrom(moves: seq<Move>)
    ensures AllFrom(moves, NONE, None)
  {
  }

  /** The store's rows are accounted for, and so is the worker's new phase. */
  lemma WorkerAccounted(moves: seq<Move>, x: Move, w: string, t: Store, q: Phase)
    requires Accounted(moves) && Run(moves + [x]) == System(t, Run(moves).workers[w := q])
    requires AllFrom(moves + [x], t.rows, None) && AllFrom(moves + [x], Mine(q), JudgingKey(q))
    ensures Accounted(moves + [x])
  {
    hide Run, AllFrom, Mine, JudgingKey;
    var workers := Run(moves).workers;
    forall v | v in workers && v != w ensures AllFrom(moves + [x], Mine(workers[v]), JudgingKey(workers[v])) {
      StillFrom(moves, x, Mine(workers[v]), JudgingKey(workers[v]));
    }
  }

  /** A job added but not judged changes nothing about the others. */
  lemma AddedFrom(moves: seq<Move>, mine: Rows, key: Key, job: Job)
    requires AllFrom(moves, mine, None) && key !in mine.jobs
    ensures AllFrom(moves, mine.(jobs := mine.jobs[key := job]), Some(key))
  {
    hide Run, FromVerdict;
    var after := mine.(jobs := mine.jobs[key := job]);
    forall k | k in after.jobs && k != key ensures FromVerdict(moves, after, k) {
      SameVerdict(moves, mine, after, k);
    }
  }

  /** A step that judges nothing. */
  lemma StepFrom(moves: seq<Move>, s: Store, p: Phase, r: Reading)
    requires AllFrom(moves, s.rows, None) && AllFrom(moves, Mine(p), JudgingKey(p))
    requires Tidy(s.rows, None) && PhaseTidy(p) && (p.Judging? ==> r.outage)
    ensures var (t, q) := Evaluations.Step(s, p, r);
            AllFrom(moves, t.rows, None) && AllFrom(moves, Mine(q), JudgingKey(q))
  {
    hide AllFrom, Judged, Merged, Tidy, ClaimKey, Running;
    var (t, q) := Evaluations.Step(s, p, r);
    NoneFrom(moves);
    if p.Choosing? {
      if p.todo == [] {
        if p.mine.jobs.Keys !! s.rows.jobs.Keys { MergedFrom(moves, s.rows, p.mine); }
      } else if q.Judging? {
        AddedFrom(moves, p.mine, Key(p.project, r.job), Running(p.trace, p.todo[0], |s.grants|));
      }
    }
  }

  lemma StepAccounted(moves: seq<Move>, x: Move)
    requires Accounted(moves) && Kept(Run(moves)) && x.Work? && x.w in Run(moves).workers
    ensures Accounted(moves + [x])
  {
    hide Run, AllFrom, Judged, Tidy, PhaseTidy, GrantsSpaced, Granted, Apart;
    RunSnoc(moves, x);
    var s, p := Run(moves).store, Run(moves).workers[x.w];
    var (t, q) := Evaluations.Step(s, p, x.r);
    KeptOf(Run(moves), x.w);
    StillFrom(moves, x, s.rows, None);
    StillFrom(moves, x, Mine(p), JudgingKey(p));
    if p.Judging? && !x.r.outage {
      JudgeAccounted(moves, x);
    } else {
      StepFrom(moves + [x], s, p, x.r);
    }
    hide Accounted;
    WorkerAccounted(moves, x, x.w, t, q);
  }

  lemma NextAccounted(moves: seq<Move>, x: Move)
    requires Accounted(moves) && Kept(Run(moves))
    ensures Accounted(moves + [x])
  {
    hide Run, AllFrom, Evaluations.Step, Kept;
    RunSnoc(moves, x);
    var sys := Run(moves);
    StillFrom(moves, x, sys.store.rows, None);
    NoneFrom(moves + [x]);
    forall v | v in sys.workers ensures AllFrom(moves + [x], Mine(sys.workers[v]), JudgingKey(sys.workers[v])) {
      StillFrom(moves, x, Mine(sys.workers[v]), JudgingKey(sys.workers[v]));
    }
    if x.Work? && x.w in sys.workers { StepAccounted(moves, x); }
  }

  lemma {:induction false} RunAccounted(moves: seq<Move>)
    ensures Accounted(moves) && Kept(Run(moves))
  {
    RunKept(moves);
    if moves == [] {
      NoneFrom(moves);
    } else {
      hide Accounted, Kept, Next;
      var n := |moves| - 1;
      RunAccounted(moves[..n]);
      NextAccounted(moves[..n], moves[n]);
      assert moves == moves[..n] + [moves[n]];
    }
  }

  /** Over every run each committed job comes from a judging step of its own, with some verdict: it
      is COMPLETED unless converting that verdict raised, and its score carries the rule's name,
      version and data type and is worth what the answer says. */
  lemma JobsAsJudged(moves: seq<Move>, k: Key) returns (i: nat)
    requires k in Run(moves).store.rows.jobs
    ensures JudgedAt(moves, i, Run(moves).store.rows, k)
  {
    hide Run;
    RunAccounted(moves);
    assert FromVerdict(moves, Run(moves).store.rows, k);
    i :| JudgedAt(moves, i, Run(moves).store.rows, k);
  }

  /** And each committed score is the score of such a job. */
  lemma ScoresAsJudged(moves: seq<Move>, sk: Key) returns (k: Key, i: nat)
    requires sk in Run(moves).store.rows.scores
    ensures sk == Key(k.project, k.id + ":score") && JudgedAt(moves, i, Run(moves).store.rows, k)
    ensures Run(moves).store.rows.jobs[k].status == COMPLETED
  {
    hide Run;
    CommittedJobsFinished(moves);
    var rows := Run(moves).store.rows;
    assert Owned(rows, sk);
    k :| k in rows.jobs && sk == Key(k.project, ScoreId(k.id)) && rows.jobs[k].status == COMPLETED;
    ScoreIds(k, k);
    i := JobsAsJudged(moves, k);
  }
}
