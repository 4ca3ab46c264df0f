/** `evaluate_trace` and `run_rule` in several eval workers at once: SETNX claims that expire,
    and transactions that commit, roll back or die with their worker. */
module Evaluations {
  import opened Tables

  const DONE_TTL: nat := 86400

  /** A rule with the evaluator version pinned to it. */
  datatype DataType = NUMERIC | CATEGORICAL | BOOLEAN

  datatype Rule = Rule(id: string, version: string, scoreName: string, dataType: DataType)

  /** The `score` field of a verdict: what Python makes of the JSON, with what `str` shows of it.
      Of a string it matters whether `float` reads it; `Other` is null, a list or an object. */
  datatype Answer =
    | Number(value: real, shown: string)
    | Words(text: string, read: Option<real>)
    | Truth(yes: bool)
    | Other(shown: string)

  function Shown(a: Answer): string {
    match a
    case Number(_, shown) => shown
    case Words(text, _) => text
    case Truth(yes) => if yes then "True" else "False"
    case Other(shown) => shown
  }

  /** What a row of scores holds: `value` or `string_value`. */
  datatype Mark = Value(value: real) | Category(text: string)

  /** The conversion by the score's data type; None when it raises. */
  function MarkOf(dataType: DataType, a: Answer): Option<Mark> {
    match dataType
    case CATEGORICAL => Some(Category(Shown(a)))
    case BOOLEAN =>
      var yes := match a
                 case Number(value, _) => value == 1.0
                 case Words(text, _) => text == "true" || text == "1"
                 case Truth(yes) => yes
                 case Other(_) => false;
      Some(Value(if yes then 1.0 else 0.0))
    case NUMERIC =>
      match a
      case Number(value, _) => Some(Value(value))
      case Words(_, read) => if read.Some? then Some(Value(read.value)) else None
      case Truth(yes) => Some(Value(if yes then 1.0 else 0.0))
      case Other(_) => None
  }

  /** A claim is the Redis key it is kept under, one string for all three names. */
  type Claim = string

  function ClaimKey(project: string, trace: string, rule: string): Claim {
    "eval:done:" + project + ":" + trace + ":" + rule
  }

  datatype Status = RUNNING | COMPLETED | ERROR

  /** A row of job_executions. `grant` numbers the claim it was run under, for the statements. */
  datatype Job = Job(version: string, rule: string, trace: string, status: Status, scoreId: Option<string>, grant: nat)

  /** A row of scores with source EVAL. */
  datatype Score = Score(trace: string, name: string, version: string, dataType: DataType, mark: Mark)

  /** A category for categorical scores, 0 or 1 for boolean ones, else a number. */
  predicate MarkFits(s: Score) {
    match s.dataType
    case CATEGORICAL => s.mark.Category?
    case BOOLEAN => s.mark == Value(0.0) || s.mark == Value(1.0)
    case NUMERIC => s.mark.Value?
  }

  /** Rows keyed by (project, id): the committed ones, or those of one transaction. */
  datatype Rows = Rows(jobs: map<Key, Job>, scores: map<Key, Score>)

  const NONE: Rows := Rows(map[], map[])

  /** A claim that was won, and when. */
  datatype Grant = Grant(claim: Claim, at: int)

  /** Where a worker is inside `evaluate_trace`; `mine` are its uncommitted rows. */
  datatype Phase =
    | Idle
    | Choosing(project: string, trace: string, todo: seq<Rule>, mine: Rows)
    | Judging(project: string, trace: string, rule: Rule, job: string, grant: nat, todo: seq<Rule>, mine: Rows)

  /** What the workers share; `claims` are the live Redis keys, `grants` all claims ever won. */
  datatype Store = Store(now: int, claims: map<Claim, nat>, grants: seq<Grant>, rows: Rows)

  /** What one step meets: whether sampling and filter select the rule, the job id made from
      the clock, the score in the judge's validated verdict or None if judging or validating
      raises, and whether the database fails. */
  datatype Reading = Reading(selected: bool, job: string, verdict: Option<Answer>, outage: bool)

  function ScoreId(job: string): string {
    job + ":score"
  }

  /** A job under `rule`, before the judge answered. */
  function Running(trace: string, rule: Rule, grant: nat): Job {
    Job(rule.version, rule.id, trace, RUNNING, None, grant)
  }

  /** A transaction's rows after the judge answered: a score and a COMPLETED job, or an ERROR
      job. */
  function Judged(mine: Rows, project: string, trace: string, rule: Rule, job: string, grant: nat,
                  verdict: Option<Answer>): Rows
  {
    var key, scoreKey := Key(project, job), Key(project, ScoreId(job));
    var row := Running(trace, rule, grant);
    match if verdict.Some? then MarkOf(rule.dataType, verdict.value) else None
    case None => mine.(jobs := mine.jobs[key := row.(status := ERROR)])
    case Some(mark) =>
      Rows(mine.jobs[key := row.(status := COMPLETED, scoreId := Some(scoreKey.id))],
           if scoreKey in mine.scores then mine.scores  // ON CONFLICT DO NOTHING
           else mine.scores[scoreKey := Score(trace, rule.scoreName, rule.version, rule.dataType, mark)])
  }

  /** The tables with a transaction's rows added. */
  function Merged(rows: Rows, mine: Rows): Rows {
    Rows(rows.jobs + mine.jobs, mine.scores + rows.scores)
  }

  /** One effect of a worker. A primary key that is taken fails the transaction. */
  function Step(s: Store, p: Phase, r: Reading): (Store, Phase) {
    match p
    case Idle => (s, Idle)
    case Choosing(project, trace, todo, mine) =>
      if todo == [] then
        if r.outage || !(mine.jobs.Keys !! s.rows.jobs.Keys) then (s, Idle)
        else (s.(rows := Merged(s.rows, mine)), Idle)
      else
        var rule := todo[0];
        var claim := ClaimKey(project, trace, rule.id);
        if !r.selected || claim in s.claims then (s, Choosing(project, trace, todo[1..], mine))
        else
          var grant, key := |s.grants|, Key(project, r.job);
          var t := s.(claims := s.claims[claim := grant], grants := s.grants + [Grant(claim, s.now)]);
          if r.outage || key in s.rows.jobs || key in mine.jobs then (t, Idle)
          else
            (t, Judging(project, trace, rule, r.job, grant, todo[1..],
                        mine.(jobs := mine.jobs[key := Running(trace, rule, grant)])))
    case Judging(project, trace, rule, job, grant, todo, mine) =>
      if r.outage then (s, Idle)
      else (s, Choosing(project, trace, todo, Judged(mine, project, trace, rule, job, grant, r.verdict)))
  }

  // --- several workers ------------------------------------------------------------------------------

  datatype System = System(store: Store, workers: map<string, Phase>)

  datatype Move =
    | Open(w: string, project: string, trace: string, rules: seq<Rule>)  // evaluate_trace begins
    | Work(w: string, r: Reading)
    | Crash(w: string)
    | Expire(claim: Claim)  // Redis drops a key DONE_TTL old
    | Tick(d: nat)

  const START: System := System(Store(0, map[], [], NONE), map[])

  predicate Expired(s: Store, c: Claim) {
    c in s.claims && s.claims[c] < |s.grants| && s.now >= s.grants[s.claims[c]].at + DONE_TTL
  }

  function Next(sys: System, m: Move): System {
    var s := sys.store;
    match m
    case Open(w, project, trace, rules) =>
      if w in sys.workers && sys.workers[w] != Idle then sys
      else sys.(workers := sys.workers[w := Choosing(project, trace, rules, NONE)])
    case Work(w, r) =>
      if w !in sys.workers then sys
      else
        var (t, q) := Step(s, sys.workers[w], r);
        System(t, sys.workers[w := q])
    case Crash(w) => sys.(workers := sys.workers - {w})
    case Expire(c) => if Expired(s, c) then sys.(store := s.(claims := s.claims - {c})) else sys
    case Tick(d) => sys.(store := s.(now := s.now + d))
  }

  function Run(moves: seq<Move>): System {
    if moves == [] then START else Next(Run(moves[..|moves| - 1]), moves[|moves| - 1])
  }

  // --- the invariant -----------------------------------------------------------------------------------

  function Mine(p: Phase): Rows {
    match p
    case Idle => NONE
    case Choosing(_, _, _, mine) => mine
    case Judging(_, _, _, _, _, _, mine) => mine
  }

  /** Claims are granted DONE_TTL apart. */
  ghost predicate GrantsSpaced(s: Store) {
    && (forall c :: c in s.claims ==> s.claims[c] < |s.grants| && s.grants[s.claims[c]].claim == c)
    && (forall i :: 0 <= i < |s.grants| ==> s.grants[i].at <= s.now && (Live(s, i) || s.now >= s.grants[i].at + DONE_TTL))
    && (forall i, j :: 0 <= i < j < |s.grants| && s.grants[i].claim == s.grants[j].claim ==>
          s.grants[j].at >= s.grants[i].at + DONE_TTL)
  }

  predicate Live(s: Store, i: nat)
    requires i < |s.grants|
  {
    s.grants[i].claim in s.claims && s.claims[s.grants[i].claim] == i
  }

  /** Each job was run under a grant of its own claim, and no two under one grant. */
  predicate Granted(s: Store, rows: Rows) {
    && (forall k :: k in rows.jobs ==>
          && rows.jobs[k].grant < |s.grants|
          && s.grants[rows.jobs[k].grant].claim == ClaimKey(k.project, rows.jobs[k].trace, rows.jobs[k].rule))
    && forall k, l :: k in rows.jobs && l in rows.jobs && k != l ==> rows.jobs[k].grant != rows.jobs[l].grant
  }

  predicate Apart(a: Rows, b: Rows) {
    forall k, l :: k in a.jobs && l in b.jobs ==> a.jobs[k].grant != b.jobs[l].grant
  }

  /** COMPLETED with its own score under the same version, or ERROR without one. */
  predicate Finished(rows: Rows, k: Key)
    requires k in rows.jobs
  {
    var job, scoreKey := rows.jobs[k], Key(k.project, ScoreId(k.id));
    if job.status == COMPLETED then
      && job.scoreId == Some(scoreKey.id) && scoreKey in rows.scores
      && rows.scores[scoreKey].trace == job.trace && rows.scores[scoreKey].version == job.version
      && MarkFits(rows.scores[scoreKey])
    else job.status == ERROR && job.scoreId == None && scoreKey !in rows.scores
  }

  /** The score is some COMPLETED job's own. */
  predicate Owned(rows: Rows, sk: Key) {
    exists k :: k in rows.jobs && sk == Key(k.project, ScoreId(k.id)) && rows.jobs[k].status == COMPLETED
  }

  /** Every job but the one being judged is finished, and every score belongs to a job. */
  predicate Tidy(rows: Rows, judging: Option<Key>) {
    && (forall k :: k in rows.jobs && Some(k) != judging ==> Finished(rows, k))
    && forall sk :: sk in rows.scores ==> Owned(rows, sk)
  }

  predicate PhaseTidy(p: Phase) {
    match p
    case Idle => true
    case Choosing(_, _, _, mine) => Tidy(mine, None)
    case Judging(project, trace, rule, job, grant, _, mine) =>
      && Tidy(mine, Some(Key(project, job)))
      && Key(project, job) in mine.jobs && mine.jobs[Key(project, job)] == Running(trace, rule, grant)
  }

  ghost predicate Kept(sys: System) {
    && GrantsSpaced(sys.store) && Granted(sys.store, sys.store.rows) && Tidy(sys.store.rows, None)
    && (forall w :: w in sys.workers ==>
          && Granted(sys.store, Mine(sys.workers[w])) && PhaseTidy(sys.workers[w])
          && Apart(sys.store.rows, Mine(sys.workers[w])))
    && forall v, w :: v in sys.workers && w in sys.workers && v != w ==>
          Apart(Mine(sys.workers[v]), Mine(sys.workers[w]))
  }

  lemma OwnScoreId(a: string, b: string)
    requires ScoreId(a) == ScoreId(b)
    ensures a == b
  {
    assert ScoreId(a)[..|a|] == a && ScoreId(b)[..|b|] == b;
  }

  lemma MergedTidy(rows: Rows, mine: Rows)
    requires Tidy(rows, None) && Tidy(mine, None) && rows.jobs.Keys !! mine.jobs.Keys
    ensures Tidy(Merged(rows, mine), None)
  {
    var all := Merged(rows, mine);
    forall sk | sk in rows.scores && sk in mine.scores ensures false {
      assert Owned(rows, sk) && Owned(mine, sk);
      var k :| k in rows.jobs && sk == Key(k.project, ScoreId(k.id));
      var l :| l in mine.jobs && sk == Key(l.project, ScoreId(l.id));
      OwnScoreId(k.id, l.id);
    }
    forall sk | sk in all.scores ensures Owned(all, sk) {
      if sk in rows.scores {
        assert Owned(rows, sk);
      } else {
        assert Owned(mine, sk);
      }
    }
    forall k | k in all.jobs ensures Finished(all, k) {
      var scoreKey := Key(k.project, ScoreId(k.id));
      if k in mine.jobs {
        assert Finished(mine, k);
        if scoreKey in rows.scores { OwnerIs(rows, k); }
      } else {
        assert Finished(rows, k);
        if scoreKey in mine.scores { OwnerIs(mine, k); }
      }
    }
  }

  /** A job's score is owned by that job. */
  lemma OwnerIs(rows: Rows, k: Key)
    requires Owned(rows, Key(k.project, ScoreId(k.id)))
    ensures k in rows.jobs && rows.jobs[k].status == COMPLETED
  {
    var l :| l in rows.jobs && Key(k.project, ScoreId(k.id)) == Key(l.project, ScoreId(l.id)) &&
             rows.jobs[l].status == COMPLETED;
    OwnScoreId(k.id, l.id);
  }

  lemma JudgedTidy(p: Phase, verdict: Option<Answer>)
    requires p.Judging? && PhaseTidy(p)
    ensures Tidy(Judged(p.mine, p.project, p.trace, p.rule, p.job, p.grant, verdict), None)
  {
    var key, scoreKey := Key(p.project, p.job), Key(p.project, ScoreId(p.job));
    var after := Judged(p.mine, p.project, p.trace, p.rule, p.job, p.grant, verdict);
    if scoreKey in p.mine.scores {
      OwnerIs(p.mine, key);
    }
    forall k | k in after.jobs ensures Finished(after, k) {
      if k != key {
        assert Finished(p.mine, k);
        if Key(k.project, ScoreId(k.id)) == scoreKey { OwnScoreId(k.id, key.id); }
      }
    }
    forall sk | sk in after.scores ensures Owned(after, sk) {
      if sk == scoreKey {
        assert key in after.jobs;
      } else {
        assert Owned(p.mine, sk);
        var k :| k in p.mine.jobs && sk == Key(k.project, ScoreId(k.id)) && p.mine.jobs[k].status == COMPLETED;
        assert k != key && k in after.jobs;
      }
    }
  }

  /** What a step leaves alone: the other workers' rows stay granted and apart. */
  predicate Extends(s: Store, t: Store) {
    s.grants <= t.grants
  }

  lemma StillGranted(s: Store, t: Store, rows: Rows)
    requires Extends(s, t) && Granted(s, rows)
    ensures Granted(t, rows)
  {
  }

  /** Each job in `after` was there before under its grant, or has a grant yet unused. */
  predicate Descends(s: Store, before: Rows, after: Rows) {
    forall k :: k in after.jobs ==>
      after.jobs[k].grant >= |s.grants| || (k in before.jobs && after.jobs[k].grant == before.jobs[k].grant)
  }

  lemma StillApart(s: Store, others: Rows, before: Rows, after: Rows)
    requires Granted(s, others) && Descends(s, before, after) && Apart(others, before)
    ensures Apart(others, after) && Apart(after, others)
  {
  }

  /** A step of one worker that does not commit: it starts over, keeps its rows, or adds a job
      under a new grant. */
  lemma WorkKept(sys: System, w: string, t: Store, q: Phase)
    requires Kept(sys) && w in sys.workers && Extends(sys.store, t) && GrantsSpaced(t)
    requires t.rows == sys.store.rows && PhaseTidy(q) && Granted(t, Mine(q))
    requires Descends(sys.store, Mine(sys.workers[w]), Mine(q))
    ensures Kept(System(t, sys.workers[w := q]))
  {
    hide Granted, Apart, Descends, PhaseTidy, GrantsSpaced, Tidy, Extends, Mine;
    var next := System(t, sys.workers[w := q]);
    StillGranted(sys.store, t, t.rows);
    StillApart(sys.store, t.rows, Mine(sys.workers[w]), Mine(q));
    forall v | v in sys.workers && v != w
      ensures Granted(t, Mine(sys.workers[v])) && Apart(Mine(q), Mine(sys.workers[v])) && Apart(Mine(sys.workers[v]), Mine(q))
    {
      StillGranted(sys.store, t, Mine(sys.workers[v]));
      StillApart(sys.store, Mine(sys.workers[v]), Mine(sys.workers[w]), Mine(q));
    }
  }

  lemma CommitKept(sys: System, w: string)
    requires Kept(sys) && w in sys.workers
    requires sys.workers[w].Choosing? && sys.workers[w].mine.jobs.Keys !! sys.store.rows.jobs.Keys
    ensures Kept(System(sys.store.(rows := Merged(sys.store.rows, sys.workers[w].mine)), sys.workers[w := Idle]))
  {
    hide Granted, Apart, GrantsSpaced, Tidy, Extends, Merged;
    var mine, s := sys.workers[w].mine, sys.store;
    var t := s.(rows := Merged(s.rows, mine));
    MineTidy(sys.workers[w]);
    MergedTidy(s.rows, mine);
    MergedGranted(s, s.rows, mine);
    SpacedStill(s, t);
    IdleTidy(t);
    forall v | v in sys.workers && v != w
      ensures Granted(t, Mine(sys.workers[v])) && Apart(t.rows, Mine(sys.workers[v]))
    {
      SpacedStill(s, t);
      StillGranted(s, t, Mine(sys.workers[v]));
      MergedApart(s.rows, mine, Mine(sys.workers[v]));
    }
    forall v | v in sys.workers
      ensures Apart(NONE, Mine(sys.workers[v])) && Apart(Mine(sys.workers[v]), NONE) && Apart(t.rows, NONE)
    {
      NoneApart(Mine(sys.workers[v]), t.rows);
    }
  }

  lemma MineTidy(p: Phase)
    requires p.Choosing? && PhaseTidy(p)
    ensures Tidy(p.mine, None) && Mine(p) == p.mine
  {
  }

  lemma SpacedStill(s: Store, t: Store)
    requires t.grants == s.grants && t.claims == s.claims && t.now == s.now
    ensures (GrantsSpaced(s) ==> GrantsSpaced(t)) && Extends(s, t)
  {
  }

  lemma MergedApart(rows: Rows, mine: Rows, others: Rows)
    requires Apart(rows, others) && Apart(mine, others)
    ensures Apart(Merged(rows, mine), others)
  {
  }

  lemma NoneApart(a: Rows, b: Rows)
    ensures Apart(NONE, a) && Apart(a, NONE) && Apart(b, NONE)
  {
  }

  lemma MergedGranted(s: Store, rows: Rows, mine: Rows)
    requires Granted(s, rows) && Granted(s, mine) && Apart(rows, mine) && rows.jobs.Keys !! mine.jobs.Keys
    ensures Granted(s.(rows := Merged(rows, mine)), Merged(rows, mine))
  {
  }

  /** SETNX: the claim was not live, so every older grant of it is DONE_TTL old. */
  lemma GrantKept(s: Store, c: Claim)
    requires GrantsSpaced(s) && c !in s.claims
    ensures GrantsSpaced(s.(claims := s.claims[c := |s.grants|], grants := s.grants + [Grant(c, s.now)]))
  {
    var t := s.(claims := s.claims[c := |s.grants|], grants := s.grants + [Grant(c, s.now)]);
    forall i | 0 <= i < |t.grants| ensures t.grants[i].at <= t.now && (Live(t, i) || t.now >= t.grants[i].at + DONE_TTL) {
      if i < |s.grants| {
        assert t.grants[i] == s.grants[i] && (Live(s, i) || s.now >= s.grants[i].at + DONE_TTL);
      }
    }
    forall i, j | 0 <= i < j < |t.grants| && t.grants[i].claim == t.grants[j].claim
      ensures t.grants[j].at >= t.grants[i].at + DONE_TTL
    {
      if j == |s.grants| {
        assert !Live(s, i);
      }
    }
  }

  /** The claim was won: a job is added, or the insert fails and the claim stays. */
  lemma ClaimKept(sys: System, w: string, r: Reading)
    requires Kept(sys) && w in sys.workers && sys.workers[w].Choosing? && sys.workers[w].todo != []
    requires r.selected && ClaimKey(sys.workers[w].project, sys.workers[w].trace, sys.workers[w].todo[0].id) !in sys.store.claims
    ensures Kept(Next(sys, Work(w, r)))
  {
    hide Tidy, GrantsSpaced, Apart, Kept;
    var s, p := sys.store, sys.workers[w];
    var (t, q) := Step(s, p, r);
    KeptOf(sys, w);
    GrantKept(s, ClaimKey(p.project, p.trace, p.todo[0].id));
    IdleTidy(t);
    if q != Idle {
      RunningTidy(p.mine, p.project, p.trace, p.todo[0], r.job, |s.grants|);
    }
    WorkKept(sys, w, t, q);
  }

  lemma KeptOf(sys: System, w: string)
    requires Kept(sys) && w in sys.workers
    ensures Granted(sys.store, Mine(sys.workers[w])) && PhaseTidy(sys.workers[w]) && GrantsSpaced(sys.store)
  {
  }

  lemma JudgeKept(sys: System, w: string, r: Reading)
    requires Kept(sys) && w in sys.workers && sys.workers[w].Judging?
    ensures Kept(Next(sys, Work(w, r)))
  {
    hide Tidy, GrantsSpaced, Apart, Kept, Judged;
    var s, p := sys.store, sys.workers[w];
    var (t, q) := Step(s, p, r);
    KeptOf(sys, w);
    IdleTidy(s);
    if !r.outage {
      JudgedTidy(p, r.verdict);
      JudgedJobs(p.mine, p.project, p.trace, p.rule, p.job, p.grant, r.verdict);
    }
    WorkKept(sys, w, t, q);
  }

  lemma StepKept(sys: System, w: string, r: Reading)
    requires Kept(sys) && w in sys.workers
    ensures Kept(Next(sys, Work(w, r)))
  {
    hide Tidy, GrantsSpaced, Apart, Merged, Judged, Kept, Running;
    var s, p := sys.store, sys.workers[w];
    var (t, q) := Step(s, p, r);
    KeptOf(sys, w);
    match p
    case Idle => WorkKept(sys, w, t, q);
    case Choosing(project, trace, todo, mine) =>
      if todo == [] {
        IdleTidy(s);
        if r.outage || !(mine.jobs.Keys !! s.rows.jobs.Keys) { WorkKept(sys, w, t, q); } else { CommitKept(sys, w); }
      } else if !r.selected || ClaimKey(project, trace, todo[0].id) in s.claims {
        WorkKept(sys, w, t, q);
      } else {
        ClaimKept(sys, w, r);
      }
    case Judging(project, trace, rule, job, grant, todo, mine) => JudgeKept(sys, w, r);
  }

  lemma IdleTidy(s: Store)
    ensures Granted(s, NONE) && PhaseTidy(Idle)
  {
  }

  lemma RunningTidy(mine: Rows, project: string, trace: string, rule: Rule, job: string, grant: nat)
    requires Tidy(mine, None) && Key(project, job) !in mine.jobs
    ensures Tidy(mine.(jobs := mine.jobs[Key(project, job) := Running(trace, rule, grant)]), Some(Key(project, job)))
  {
    var after := mine.(jobs := mine.jobs[Key(project, job) := Running(trace, rule, grant)]);
    forall k | k in after.jobs && k != Key(project, job) ensures Finished(after, k) {
      assert Finished(mine, k);
    }
    forall sk | sk in after.scores ensures Owned(after, sk) {
      assert Owned(mine, sk);
      var k :| k in mine.jobs && sk == Key(k.project, ScoreId(k.id)) && mine.jobs[k].status == COMPLETED;
      assert k in after.jobs && after.jobs[k].status == COMPLETED;
    }
  }

  /** Judging changes neither which jobs there are nor their grants, traces and rules. */
  lemma JudgedJobs(mine: Rows, project: string, trace: string, rule: Rule, job: string, grant: nat,
                   verdict: Option<Answer>)
    requires Key(project, job) in mine.jobs && mine.jobs[Key(project, job)] == Running(trace, rule, grant)
    ensures var after := Judged(mine, project, trace, rule, job, grant, verdict);
            && after.jobs.Keys == mine.jobs.Keys
            && forall k :: k in mine.jobs ==>
                 && after.jobs[k].grant == mine.jobs[k].grant && after.jobs[k].trace == mine.jobs[k].trace
                 && after.jobs[k].rule == mine.jobs[k].rule
  {
  }

  lemma ClockKept(s: Store, d: nat)
    requires GrantsSpaced(s)
    ensures GrantsSpaced(s.(now := s.now + d))
  {
    var t := s.(now := s.now + d);
    forall i | 0 <= i < |t.grants| ensures t.grants[i].at <= t.now && (Live(t, i) || t.now >= t.grants[i].at + DONE_TTL) {
      assert Live(s, i) || s.now >= s.grants[i].at + DONE_TTL;
    }
  }

  lemma ExpiryKept(s: Store, c: Claim)
    requires GrantsSpaced(s) && Expired(s, c)
    ensures GrantsSpaced(s.(claims := s.claims - {c}))
  {
    var t := s.(claims := s.claims - {c});
    forall i | 0 <= i < |t.grants| ensures t.grants[i].at <= t.now && (Live(t, i) || t.now >= t.grants[i].at + DONE_TTL) {
      assert Live(s, i) || s.now >= s.grants[i].at + DONE_TTL;
    }
  }

  lemma StoreKept(sys: System, t: Store)
    requires Kept(sys) && t.rows == sys.store.rows && t.grants == sys.store.grants && GrantsSpaced(t)
    ensures Kept(sys.(store := t))
  {
    hide Apart, PhaseTidy, GrantsSpaced, Tidy;
    StillGranted(sys.store, t, t.rows);
    forall v | v in sys.workers ensures Granted(t, Mine(sys.workers[v])) {
      StillGranted(sys.store, t, Mine(sys.workers[v]));
    }
  }

  lemma OpenKept(sys: System, w: string, q: Phase)
    requires Kept(sys) && q.Choosing? && q.mine == NONE
    ensures Kept(sys.(workers := sys.workers[w := q]))
  {
    hide Apart, GrantsSpaced, Granted;
    var next := sys.(workers := sys.workers[w := q]);
    IdleTidy(sys.store);
    forall v | v in next.workers
      ensures Apart(NONE, Mine(next.workers[v])) && Apart(Mine(next.workers[v]), NONE) && Apart(sys.store.rows, NONE)
    {
      NoneApart(Mine(next.workers[v]), sys.store.rows);
    }
  }

  lemma NextKept(sys: System, m: Move)
    requires Kept(sys)
    ensures Kept(Next(sys, m))
  {
    hide Kept, Step, GrantsSpaced;
    match m
    case Open(w, project, trace, rules) =>
      if !(w in sys.workers && sys.workers[w] != Idle) { OpenKept(sys, w, Choosing(project, trace, rules, NONE)); }
    case Work(w, r) => if w in sys.workers { StepKept(sys, w, r); }
    case Crash(w) => CrashKept(sys, w);
    case Expire(c) =>
      if Expired(sys.store, c) {
        KeptSpaced(sys);
        ExpiryKept(sys.store, c);
        StoreKept(sys, sys.store.(claims := sys.store.claims - {c}));
      }
    case Tick(d) =>
      KeptSpaced(sys);
      ClockKept(sys.store, d);
      StoreKept(sys, sys.store.(now := sys.store.now + d));
  }

  lemma KeptSpaced(sys: System)
    requires Kept(sys)
    ensures GrantsSpaced(sys.store)
  {
  }

  lemma CrashKept(sys: System, w: string)
    requires Kept(sys)
    ensures Kept(sys.(workers := sys.workers - {w}))
  {
    hide Apart, PhaseTidy, GrantsSpaced, Tidy, Granted;
  }

  lemma {:induction false} RunKept(moves: seq<Move>)
    ensures Kept(Run(moves))
  {
    hide Kept, Next;
    if moves == [] {
      StartKept();
    } else {
      RunKept(moves[..|moves| - 1]);
      NextKept(Run(moves[..|moves| - 1]), moves[|moves| - 1]);
    }
  }

  lemma StartKept()
    ensures Kept(START)
  {
  }

  // --- at most once ---------------------------------------------------------------------------------------

  function ClaimOf(k: Key, job: Job): Claim {
    ClaimKey(k.project, job.trace, job.rule)
  }

  function Distance(a: int, b: int): int {
    if a <= b then b - a else a - b
  }

  /** Over every interleaving of workers, rollbacks, crashes and expiries: two committed jobs of
      one project, trace and rule were claimed at least DONE_TTL apart. */
  lemma AtMostOncePerTtl(moves: seq<Move>, a: Key, b: Key)
    requires var jobs := Run(moves).store.rows.jobs;
             a in jobs && b in jobs && a != b && ClaimOf(a, jobs[a]) == ClaimOf(b, jobs[b])
    ensures var s := Run(moves).store;
            && s.rows.jobs[a].grant < |s.grants| && s.rows.jobs[b].grant < |s.grants|
            && Distance(s.grants[s.rows.jobs[a].grant].at, s.grants[s.rows.jobs[b].grant].at) >= DONE_TTL
  {
    hide Run;
    RunKept(moves);
    var s := Run(moves).store;
    assert Granted(s, s.rows) && GrantsSpaced(s);
  }

  lemma {:induction false} ClockStartsAtZero(moves: seq<Move>)
    ensures var s := Run(moves).store; s.now >= 0 && forall i :: 0 <= i < |s.grants| ==> 0 <= s.grants[i].at <= s.now
  {
    if moves != [] {
      ClockStartsAtZero(moves[..|moves| - 1]);
    }
  }

  /** So within the claims' lifetime there is at most one committed job per claim key, and so per
      project, trace and rule. */
  lemma AtMostOnce(moves: seq<Move>, a: Key, b: Key)
    requires Run(moves).store.now < DONE_TTL
    requires var jobs := Run(moves).store.rows.jobs;
             a in jobs && b in jobs && ClaimOf(a, jobs[a]) == ClaimOf(b, jobs[b])
    ensures a == b
  {
    hide Run;
    if a != b {
      AtMostOncePerTtl(moves, a, b);
      ClockStartsAtZero(moves);
    }
  }

  /** Project and trace ids without a colon have claims of their own. */
  lemma ColonFreeClaims(p: string, t: string, r: string, q: string, u: string, s: string)
    requires ':' !in p && ':' !in t && ':' !in q && ':' !in u
    ensures ClaimKey(p, t, r) == ClaimKey(q, u, s) <==> (p, t, r) == (q, u, s)
  {
    hide ClaimKey;
    if ClaimKey(p, t, r) == ClaimKey(q, u, s) {
      AfterPrefix(p, t, r);
      AfterPrefix(q, u, s);
      SplitAtColon(p, t + ":" + r, q, u + ":" + s);
      SplitAtColon(t, r, u, s);
    }
  }

  lemma AfterPrefix(p: string, t: string, r: string)
    ensures |ClaimKey(p, t, r)| >= 10 && ClaimKey(p, t, r)[10..] == p + ":" + (t + ":" + r)
  {
    var rest := p + ":" + (t + ":" + r);
    assert ClaimKey(p, t, r) == "eval:done:" + rest;
  }

  lemma SplitAtColon(a: string, x: string, b: string, y: string)
    requires ':' !in a && ':' !in b && a + ":" + x == b + ":" + y
    ensures a == b && x == y
  {
    var both := a + ":" + x;
    assert both[|a|] == ':' && both[|b|] == ':';
    assert forall i :: 0 <= i < |a| ==> both[i] == a[i];
    assert forall i :: 0 <= i < |b| ==> both[i] == b[i];
    assert both[..|a|] == a && both[..|b|] == b && both[|a| + 1..] == x && both[|b| + 1..] == y;
  }

  /** The score is that of a committed job for the claim. */
  predicate ScoredFor(rows: Rows, sk: Key, c: Claim) {
    exists k :: k in rows.jobs && sk == Key(k.project, ScoreId(k.id)) && ClaimOf(k, rows.jobs[k]) == c
  }

  /** And at most one score: every score is some claim's, and no claim has two. */
  lemma AtMostOneScore(moves: seq<Move>)
    requires Run(moves).store.now < DONE_TTL
    ensures var rows := Run(moves).store.rows;
            && (forall sk :: sk in rows.scores ==> exists c :: ScoredFor(rows, sk, c))
            && forall x, y, c :: x in rows.scores && y in rows.scores && ScoredFor(rows, x, c) && ScoredFor(rows, y, c) ==> x == y
  {
    hide Run;
    var rows := Run(moves).store.rows;
    CommittedJobsFinished(moves);
    forall sk | sk in rows.scores ensures exists c :: ScoredFor(rows, sk, c) {
      assert Owned(rows, sk);
      var k :| k in rows.jobs && sk == Key(k.project, ScoreId(k.id));
      assert ScoredFor(rows, sk, ClaimOf(k, rows.jobs[k]));
    }
    forall x, y, c | x in rows.scores && y in rows.scores && ScoredFor(rows, x, c) && ScoredFor(rows, y, c) ensures x == y {
      var k :| k in rows.jobs && x == Key(k.project, ScoreId(k.id)) && ClaimOf(k, rows.jobs[k]) == c;
      var l :| l in rows.jobs && y == Key(l.project, ScoreId(l.id)) && ClaimOf(l, rows.jobs[l]) == c;
      AtMostOnce(moves, k, l);
    }
  }

  /** Every committed job is COMPLETED with its own score under the same evaluator version, or
      ERROR with none, never RUNNING; and every score belongs to exactly one COMPLETED job. */
  lemma CommittedJobsFinished(moves: seq<Move>)
    ensures var rows := Run(moves).store.rows;
            && (forall k :: k in rows.jobs ==> Finished(rows, k) && rows.jobs[k].status != RUNNING)
            && (forall sk :: sk in rows.scores ==> Owned(rows, sk))
            && (forall k, l :: k in rows.jobs && l in rows.jobs && k != l ==>
                  Key(k.project, ScoreId(k.id)) != Key(l.project, ScoreId(l.id)))
  {
    hide Run, Owned;
    RunKept(moves);
    var rows := Run(moves).store.rows;
    assert Tidy(rows, None);
    forall k, l | k in rows.jobs && l in rows.jobs && k != l
      ensures Key(k.project, ScoreId(k.id)) != Key(l.project, ScoreId(l.id))
    {
      if ScoreId(k.id) == ScoreId(l.id) { OwnScoreId(k.id, l.id); }
    }
  }

  lemma RunSnoc(moves: seq<Move>, m: Move)
    ensures Run(moves + [m]) == Next(Run(moves), m)
  {
    assert (moves + [m])[..|moves|] == moves;
  }

  /** At most once is not exactly once: a worker that dies after winning the claim leaves a
      trace that later evaluations skip. */
  lemma ClaimedButNeverJudged(project: string, trace: string, rule: Rule, r: Reading) returns (moves: seq<Move>)
    requires r.selected && !r.outage
    ensures Run(moves).store.rows == NONE && ClaimKey(project, trace, rule.id) in Run(moves).store.claims
    ensures Run(moves).workers == map["w" := Idle]
    ensures |moves| >= 3 && moves[|moves| - 3..] == [Open("w", project, trace, [rule]), Work("w", r), Work("w", r)]
  {
    hide Run;
    var open := Open("w", project, trace, [rule]);
    assert Run([]) == START && [] + [open] == [open] by { NoMoves(); }
    RunSnoc([], open);
    RunSnoc([open], Work("w", r));
    var claimed := [open] + [Work("w", r)];
    RunSnoc(claimed, Crash("w"));
    var crashed := claimed + [Crash("w")];
    RunSnoc(crashed, open);
    RunSnoc(crashed + [open], Work("w", r));
    var skipped := crashed + [open] + [Work("w", r)];
    RunSnoc(skipped, Work("w", r));
    moves := skipped + [Work("w", r)];
  }

  lemma NoMoves()
    ensures Run([]) == START
  {
  }

  // --- traces that share a claim -------------------------------------------------------------------------

  /** What is judged: a trace under a rule. */
  datatype Subject = Subject(project: string, trace: string, rule: string)

  function ClaimFor(s: Subject): Claim {
    ClaimKey(s.project, s.trace, s.rule)
  }

  /** The subject has a committed job, COMPLETED or ERROR. */
  predicate JobOf(rows: Rows, s: Subject) {
    exists k :: k in rows.jobs && SubjectOf(k, rows.jobs[k]) == s
  }

  function SubjectOf(k: Key, job: Job): Subject {
    Subject(k.project, job.trace, job.rule)
  }

  /** Of two subjects with one claim key only one is judged. */
  lemma SharedClaimJudgesOne(moves: seq<Move>, x: Subject, y: Subject)
    requires Run(moves).store.now < DONE_TTL && ClaimFor(x) == ClaimFor(y)
    requires JobOf(Run(moves).store.rows, x) && JobOf(Run(moves).store.rows, y)
    ensures x == y
  {
    hide Run, ClaimKey;
    var jobs := Run(moves).store.rows.jobs;
    var k :| k in jobs && SubjectOf(k, jobs[k]) == x;
    var l :| l in jobs && SubjectOf(l, jobs[l]) == y;
    AtMostOnce(moves, k, l);
  }

  const PLAIN: Rule := Rule("", "v", "score", NUMERIC)

  /** A worker `w` wins the claim of subject `x`. */
  lemma ClaimedAlone(moves: seq<Move>, x: Subject, job: string) returns (more: seq<Move>)
    requires Run(moves).workers == map[] || Run(moves).workers == map["w" := Idle]
    requires ClaimFor(x) !in Run(moves).store.claims && Key(x.project, job) !in Run(moves).store.rows.jobs
    ensures var s, rule, g := Run(moves).store, PLAIN.(id := x.rule), |Run(moves).store.grants|;
            Run(more) == System(
              s.(claims := s.claims[ClaimFor(x) := g], grants := s.grants + [Grant(ClaimFor(x), s.now)]),
              map["w" := Judging(x.project, x.trace, rule, job, g, [],
                                 Rows(map[Key(x.project, job) := Running(x.trace, rule, g)], map[]))])
  {
    hide Run, ClaimKey;
    var rule := PLAIN.(id := x.rule);
    var open := Open("w", x.project, x.trace, [rule]);
    var work := Work("w", Reading(true, job, Some(Truth(true)), false));
    RunSnoc(moves, open);
    RunSnoc(moves + [open], work);
    more := moves + [open] + [work];
    assert [rule][1..] == [];
  }

  /** A worker `w` judges subject `x` from beginning to end. */
  lemma JudgedAlone(moves: seq<Move>, x: Subject, job: string) returns (more: seq<Move>)
    requires Run(moves).workers == map[] || Run(moves).workers == map["w" := Idle]
    requires ClaimFor(x) !in Run(moves).store.claims && Key(x.project, job) !in Run(moves).store.rows.jobs
    ensures var s, t := Run(moves).store, Run(more).store;
            && t.now == s.now && Run(more).workers == map["w" := Idle]
            && t.claims.Keys == s.claims.Keys + {ClaimFor(x)}
            && t.rows.jobs.Keys == s.rows.jobs.Keys + {Key(x.project, job)}
            && (forall k :: k in s.rows.jobs ==> t.rows.jobs[k] == s.rows.jobs[k])
            && SubjectOf(Key(x.project, job), t.rows.jobs[Key(x.project, job)]) == x
            && t.rows.jobs[Key(x.project, job)].status == COMPLETED
  {
    hide Run, ClaimKey, ScoreId;
    var work := Work("w", Reading(true, job, Some(Truth(true)), false));
    var claimed := ClaimedAlone(moves, x, job);
    RunSnoc(claimed, work);
    RunSnoc(claimed + [work], work);
    more := claimed + [work] + [work];
  }

  ghost predicate BothJudged(moves: seq<Move>, x: Subject, y: Subject) {
    Run(moves).store.now < DONE_TTL && JobOf(Run(moves).store.rows, x) && JobOf(Run(moves).store.rows, y)
  }

  /** Within the claims' lifetime two subjects can both be judged exactly when they do not share
      a claim key. */
  lemma BothJudgedIffApart(x: Subject, y: Subject)
    ensures (exists moves :: BothJudged(moves, x, y)) <==> x == y || ClaimFor(x) != ClaimFor(y)
  {
    hide Run, ClaimKey;
    if moves :| BothJudged(moves, x, y) {
      if ClaimFor(x) == ClaimFor(y) { SharedClaimJudgesOne(moves, x, y); }
    }
    if x == y || ClaimFor(x) != ClaimFor(y) {
      NoMoves();
      var moves := JudgedAlone([], x, "1");
      if x != y { moves := JudgedAlone(moves, y, "2"); }
      assert JobOf(Run(moves).store.rows, x) && JobOf(Run(moves).store.rows, y) && BothJudged(moves, x, y);
    }
  }

  /** Two such subjects, and they are different traces. */
  lemma SharedClaims()
    ensures ClaimFor(Subject("p", "a:b", "c")) == ClaimFor(Subject("p", "a", "b:c"))
    ensures ClaimFor(Subject("p:a", "b", "c")) == ClaimFor(Subject("p", "a:b", "c"))
  {
  }

  // --- when it is exactly once -----------------------------------------------------------------------------

  /** A job was run under grant `g`. */
  predicate Holds(rows: Rows, g: nat) {
    exists k :: k in rows.jobs && rows.jobs[k].grant == g
  }

  predicate HoldsOpen(workers: map<string, Phase>, g: nat) {
    exists w :: w in workers && Holds(Mine(workers[w]), g)
  }

  /** The job of grant `g` is committed or in an open transaction. */
  predicate Held(sys: System, g: nat) {
    Holds(sys.store.rows, g) || HoldsOpen(sys.workers, g)
  }

  predicate AllHeld(sys: System) {
    forall g: nat :: g < |sys.store.grants| ==> Held(sys, g)
  }

  /** The step ends the worker's transaction without committing it: a commit that fails, a
      statement that fails, or a job id that is taken. */
  predicate Aborts(s: Store, p: Phase, r: Reading) {
    match p
    case Idle => false
    case Choosing(project, trace, todo, mine) =>
      if todo == [] then r.outage || !(mine.jobs.Keys !! s.rows.jobs.Keys)
      else
        && r.selected && ClaimKey(project, trace, todo[0].id) !in s.claims
        && (r.outage || Key(project, r.job) in s.rows.jobs || Key(project, r.job) in mine.jobs)
    case Judging(_, _, _, _, _, _, _) => r.outage
  }

  /** The step wins a claim. */
  predicate Wins(s: Store, p: Phase, r: Reading) {
    p.Choosing? && p.todo != [] && r.selected && ClaimKey(p.project, p.trace, p.todo[0].id) !in s.claims
  }

  /** A transaction that had won a claim ends here without committing: its worker crashes, or a
      step of it aborts. */
  predicate LosesClaim(sys: System, m: Move) {
    match m
    case Crash(w) => w in sys.workers && Mine(sys.workers[w]).jobs != map[]
    case Work(w, r) =>
      && w in sys.workers && Aborts(sys.store, sys.workers[w], r)
      && (Mine(sys.workers[w]).jobs != map[] || Wins(sys.store, sys.workers[w], r))
    case _ => false
  }

  lemma HoldsOpenBut(workers: map<string, Phase>, w: string, q: Phase, g: nat)
    ensures HoldsOpen(workers[w := q], g) <==> Holds(Mine(q), g) || HoldsOpen(workers - {w}, g)
    ensures w in workers ==> (HoldsOpen(workers, g) <==> Holds(Mine(workers[w]), g) || HoldsOpen(workers - {w}, g))
  {
    hide Holds, Mine;
    if HoldsOpen(workers[w := q], g) {
      var v :| v in workers[w := q] && Holds(Mine(workers[w := q][v]), g);
      if v != w { assert v in workers - {w}; }
    }
    if HoldsOpen(workers - {w}, g) {
      var v :| v in workers - {w} && Holds(Mine((workers - {w})[v]), g);
      assert v in workers[w := q] && v in workers;
    }
    if Holds(Mine(q), g) { assert w in workers[w := q]; }
    if w in workers && HoldsOpen(workers, g) {
      var v :| v in workers && Holds(Mine(workers[v]), g);
      if v != w { assert v in workers - {w}; }
    }
  }

  lemma HoldsMerged(rows: Rows, mine: Rows, g: nat)
    requires rows.jobs.Keys !! mine.jobs.Keys
    ensures Holds(Merged(rows, mine), g) <==> Holds(rows, g) || Holds(mine, g)
  {
    var all := Merged(rows, mine);
    if Holds(rows, g) {
      var k :| k in rows.jobs && rows.jobs[k].grant == g;
      assert k in all.jobs && all.jobs[k] == rows.jobs[k];
    }
    if Holds(mine, g) {
      var k :| k in mine.jobs && mine.jobs[k].grant == g;
      assert k in all.jobs && all.jobs[k] == mine.jobs[k];
    }
  }

  lemma HoldsRunning(mine: Rows, key: Key, job: Job, g: nat)
    requires key !in mine.jobs
    ensures Holds(mine.(jobs := mine.jobs[key := job]), g) <==> Holds(mine, g) || g == job.grant
  {
    var after := mine.(jobs := mine.jobs[key := job]);
    if Holds(mine, g) {
      var k :| k in mine.jobs && mine.jobs[k].grant == g;
      assert k in after.jobs && after.jobs[k].grant == g;
    }
    if g == job.grant { assert key in after.jobs; }
  }

  lemma HoldsJudged(p: Phase, verdict: Option<Answer>, g: nat)
    requires p.Judging? && PhaseTidy(p)
    ensures Holds(Judged(p.mine, p.project, p.trace, p.rule, p.job, p.grant, verdict), g) <==> Holds(p.mine, g)
  {
    hide Tidy;
    JudgedJobs(p.mine, p.project, p.trace, p.rule, p.job, p.grant, verdict);
    var after := Judged(p.mine, p.project, p.trace, p.rule, p.job, p.grant, verdict);
    if Holds(p.mine, g) {
      var k :| k in p.mine.jobs && p.mine.jobs[k].grant == g;
      assert k in after.jobs;
    }
    if Holds(after, g) {
      var k :| k in after.jobs && after.jobs[k].grant == g;
      assert k in p.mine.jobs;
    }
  }

  /** What a step does to the grants a worker's transaction and the tables hold. */
  lemma StepHolds(s: Store, p: Phase, r: Reading, g: nat)
    requires PhaseTidy(p)
    ensures var (t, q) := Step(s, p, r);
            var wins := Wins(s, p, r);
            && |t.grants| == |s.grants| + (if wins then 1 else 0)
            && (Aborts(s, p, r) ==> t.rows == s.rows && Mine(q) == NONE)
            && (!Aborts(s, p, r) ==>
                  (Holds(t.rows, g) || Holds(Mine(q), g) <==>
                   Holds(s.rows, g) || Holds(Mine(p), g) || (wins && g == |s.grants|)))
  {
    hide Tidy, Holds, Judged, Merged;
    NothingHeld(g);
    match p
    case Idle =>
    case Choosing(project, trace, todo, mine) =>
      if todo == [] {
        if !Aborts(s, p, r) { HoldsMerged(s.rows, mine, g); }
      } else if !Aborts(s, p, r) && Wins(s, p, r) {
        HoldsRunning(mine, Key(project, r.job), Running(trace, todo[0], |s.grants|), g);
      }
    case Judging(_, _, _, _, _, _, _) =>
      if !r.outage { HoldsJudged(p, r.verdict, g); }
  }

  lemma NothingHeld(g: nat)
    ensures !Holds(NONE, g)
  {
  }

  /** Without a loss, every grant stays held. */
  lemma NextHeld(sys: System, m: Move)
    requires Kept(sys) && AllHeld(sys) && !LosesClaim(sys, m)
    ensures AllHeld(Next(sys, m))
  {
    hide Holds, Step, Kept, PhaseTidy, Aborts, Wins, Expired;
    var next := Next(sys, m);
    forall g: nat | g < |next.store.grants| ensures Held(next, g) {
      match m
      case Open(w, project, trace, rules) =>
        HoldsOpenBut(sys.workers, w, Choosing(project, trace, rules, NONE), g);
        NothingHeld(g);
        assert Held(sys, g);
        if w !in sys.workers { assert sys.workers - {w} == sys.workers; }
      case Work(w, r) =>
        if w in sys.workers {
          WorkHeld(sys, w, r, g);
        } else {
          assert Held(sys, g);
        }
      case Crash(w) =>
        assert Held(sys, g);
        CrashHeld(sys, w, g);
      case _ => assert Held(sys, g);
    }
  }

  lemma NoJobsHeld(rows: Rows, g: nat)
    requires rows.jobs == map[]
    ensures !Holds(rows, g)
  {
  }

  lemma CrashHeld(sys: System, w: string, g: nat)
    requires w in sys.workers ==> Mine(sys.workers[w]).jobs == map[]
    ensures Held(sys.(workers := sys.workers - {w}), g) <==> Held(sys, g)
  {
    hide Holds, HoldsOpen;
    if w in sys.workers {
      NoJobsHeld(Mine(sys.workers[w]), g);
      HoldsOpenBut(sys.workers, w, Idle, g);
    } else {
      assert sys.workers - {w} == sys.workers;
    }
  }

  lemma WorkHeld(sys: System, w: string, r: Reading, g: nat)
    requires Kept(sys) && w in sys.workers && AllHeld(sys) && !LosesClaim(sys, Work(w, r))
    requires g < |Next(sys, Work(w, r)).store.grants|
    ensures Held(Next(sys, Work(w, r)), g)
  {
    hide Holds, Step, Kept, PhaseTidy, Aborts, Wins, HoldsOpen, Mine;
    KeptOf(sys, w);
    var s, p := sys.store, sys.workers[w];
    var (t, q) := Step(s, p, r);
    StepHolds(s, p, r, g);
    HoldsOpenBut(sys.workers, w, q, g);
    if g < |s.grants| { assert Held(sys, g); }
    if Aborts(s, p, r) { NoJobsHeld(Mine(p), g); }
  }

  /** A grant that is not held is never held again. */
  lemma NeverHeldAgain(sys: System, m: Move, g: nat)
    requires Kept(sys) && g < |sys.store.grants| && !Held(sys, g)
    ensures g < |Next(sys, m).store.grants| && !Held(Next(sys, m), g)
  {
    hide Holds, Step, Kept, PhaseTidy, Aborts, Wins, HoldsOpen, Mine, Expired;
    match m
    case Open(w, project, trace, rules) =>
      HoldsOpenBut(sys.workers, w, Choosing(project, trace, rules, NONE), g);
      assert !Holds(Mine(Choosing(project, trace, rules, NONE)), g) by { NewHoldsNothing(project, trace, rules, g); }
      if w !in sys.workers { assert sys.workers - {w} == sys.workers; }
    case Work(w, r) =>
      if w in sys.workers {
        KeptOf(sys, w);
        StepHolds(sys.store, sys.workers[w], r, g);
        NothingHeld(g);
        HoldsOpenBut(sys.workers, w, Step(sys.store, sys.workers[w], r).1, g);
      }
    case Crash(w) =>
      if w in sys.workers { HoldsOpenBut(sys.workers, w, Idle, g); } else { assert sys.workers - {w} == sys.workers; }
    case _ =>
  }

  lemma NewHoldsNothing(project: string, trace: string, rules: seq<Rule>, g: nat)
    ensures !Holds(Mine(Choosing(project, trace, rules, NONE)), g)
  {
  }

  /** A lost claim: its grant is held no more. */
  lemma LosesSome(sys: System, m: Move) returns (g: nat)
    requires Kept(sys) && LosesClaim(sys, m)
    ensures g < |Next(sys, m).store.grants| && !Held(Next(sys, m), g)
  {
    hide Holds, Step, Kept, PhaseTidy, Aborts, Wins, HoldsOpen;
    var w := m.w;
    var s, p := sys.store, sys.workers[w];
    KeptOf(sys, w);
    if Mine(p).jobs != map[] {
      var k :| k in Mine(p).jobs;
      g := Mine(p).jobs[k].grant;
      HoldsOwn(Mine(p), k);
    } else {
      g := |s.grants|;
    }
    OthersHoldNot(sys, w, g, Mine(p).jobs != map[]);
    NothingHeld(g);
    if m.Crash? {
      assert !Holds(s.rows, g);
    } else {
      StepHolds(s, p, m.r, g);
      HoldsOpenBut(sys.workers, w, Step(s, p, m.r).1, g);
    }
  }

  /** Nobody else holds a grant of this worker's, or one not made yet. */
  lemma OthersHoldNot(sys: System, w: string, g: nat, mine: bool)
    requires Kept(sys) && w in sys.workers
    requires if mine then Holds(Mine(sys.workers[w]), g) else g == |sys.store.grants|
    ensures !Holds(sys.store.rows, g) && !HoldsOpen(sys.workers - {w}, g)
  {
    hide GrantsSpaced, PhaseTidy, Tidy;
    forall v | v in sys.workers - {w} ensures !Holds(Mine(sys.workers[v]), g) {
      assert Apart(Mine(sys.workers[v]), Mine(sys.workers[w])) && Granted(sys.store, Mine(sys.workers[v]));
    }
    assert Apart(sys.store.rows, Mine(sys.workers[w])) && Granted(sys.store, sys.store.rows);
  }

  lemma HoldsOwn(rows: Rows, k: Key)
    requires k in rows.jobs
    ensures Holds(rows, rows.jobs[k].grant)
  {
  }

  ghost predicate NoneLost(moves: seq<Move>) {
    forall i :: 0 <= i < |moves| ==> !LosesClaim(Run(moves[..i]), moves[i])
  }

  lemma {:induction false} LostForGood(moves: seq<Move>, i: nat)
    requires i < |moves| && LosesClaim(Run(moves[..i]), moves[i])
    ensures !AllHeld(Run(moves))
  {
    hide LosesClaim, Held, Next, Kept;
    var g := LostSince(moves, i);
    assert !Held(Run(moves), g);
  }

  lemma {:induction false} LostSince(moves: seq<Move>, i: nat) returns (g: nat)
    requires i < |moves| && LosesClaim(Run(moves[..i]), moves[i])
    ensures g < |Run(moves).store.grants| && !Held(Run(moves), g)
  {
    hide LosesClaim, Held, Next, Kept;
    var n := |moves| - 1;
    RunKept(moves[..n]);
    if i == n {
      g := LosesSome(Run(moves[..n]), moves[n]);
    } else {
      assert moves[..n][..i] == moves[..i] && moves[..n][i] == moves[i];
      g := LostSince(moves[..n], i);
      NeverHeldAgain(Run(moves[..n]), moves[n], g);
    }
  }

  lemma {:induction false} HeldThroughout(moves: seq<Move>)
    requires NoneLost(moves)
    ensures AllHeld(Run(moves))
  {
    hide LosesClaim, AllHeld, Next, Kept;
    if moves == [] {
      assert AllHeld(START) by { NoneGranted(); }
    } else {
      var n := |moves| - 1;
      forall j | 0 <= j < n ensures !LosesClaim(Run(moves[..n][..j]), moves[..n][j]) {
        assert moves[..n][..j] == moves[..j] && moves[..n][j] == moves[j];
      }
      HeldThroughout(moves[..n]);
      RunKept(moves[..n]);
      NextHeld(Run(moves[..n]), moves[n]);
    }
  }

  lemma NoneGranted()
    ensures AllHeld(START)
  {
  }

  /** Every claim won has its job committed or in an open transaction exactly when no
      transaction that had won a claim ended without committing: by a crash, a failing
      statement, a taken job id or a failed commit. */
  lemma AllHeldIffNoneLost(moves: seq<Move>)
    ensures AllHeld(Run(moves)) <==> NoneLost(moves)
  {
    hide LosesClaim, AllHeld, Run;
    if NoneLost(moves) {
      HeldThroughout(moves);
    } else {
      var i :| 0 <= i < |moves| && LosesClaim(Run(moves[..i]), moves[i]);
      LostForGood(moves, i);
    }
  }

  /** Then, once no transaction is open, evaluation is exactly once: each claim won has one
      committed job, which is its own. */
  lemma ExactlyOnce(moves: seq<Move>, g: nat) returns (k: Key)
    requires NoneLost(moves) && g < |Run(moves).store.grants|
    requires forall w :: w in Run(moves).workers ==> Run(moves).workers[w] == Idle
    ensures var s := Run(moves).store;
            && k in s.rows.jobs && s.rows.jobs[k].grant == g && ClaimOf(k, s.rows.jobs[k]) == s.grants[g].claim
            && forall l :: l in s.rows.jobs && s.rows.jobs[l].grant == g ==> l == k
  {
    hide Run, NoneLost;
    AllHeldIffNoneLost(moves);
    RunKept(moves);
    var sys := Run(moves);
    assert Held(sys, g) && Granted(sys.store, sys.store.rows);
    forall w | w in sys.workers ensures !Holds(Mine(sys.workers[w]), g) { NothingHeld(g); }
    k :| k in sys.store.rows.jobs && sys.store.rows.jobs[k].grant == g;
  }
}
