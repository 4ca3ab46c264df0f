/** `evaluate_trace` and `run_rule` inside one transaction, as one worker runs them. */
module EvalTransaction {
  import opened Tables
  import opened Evaluations

  /** What one evaluation meets: for each rule whether it is selected and its job id, the
      judge's answer, and how the commit goes. */
  datatype Env = Env(choose: Rule -> Reading, judge: Rule -> Reading, commit: Reading)

  function ReadingAt(p: Phase, e: Env): Reading {
    match p
    case Choosing(_, _, todo, _) => if todo == [] then e.commit else e.choose(todo[0])
    case Judging(_, _, rule, _, _, _, _) => e.judge(rule)
    case Idle => e.commit
  }

  function Rank(p: Phase): nat {
    match p
    case Idle => 0
    case Choosing(_, _, todo, _) => 2 * |todo| + 1
    case Judging(_, _, _, _, _, todo, _) => 2 * |todo| + 2
  }

  lemma StepRanks(s: Store, p: Phase, r: Reading)
    requires p != Idle
    ensures Rank(Step(s, p, r).1) < Rank(p)
  {
    hide Judged, Merged;
  }

  /** The store once the transaction of a worker in phase `p` has ended. */
  function Drive(s: Store, p: Phase, e: Env): Store
    decreases Rank(p)
  {
    if p == Idle then s
    else
      StepRanks(s, p, ReadingAt(p, e));
      var (t, q) := Step(s, p, ReadingAt(p, e));
      Drive(t, q, e)
  }

  lemma DriveStep(s: Store, p: Phase, e: Env)
    requires p != Idle
    ensures var (t, q) := Step(s, p, ReadingAt(p, e)); Drive(s, p, e) == Drive(t, q, e)
  {
  }

  lemma DriveIdle(s: Store, e: Env)
    ensures Drive(s, Idle, e) == s
  {
  }

  // --- what one evaluation leaves --------------------------------------------------------------

  /** Sampling and filter select the rule, and its claim is free. */
  predicate Chosen(s: Store, project: string, trace: string, rule: Rule, e: Env) {
    e.choose(rule).selected && "eval:done:" + project + ":" + trace + ":" + rule.id !in s.claims
  }

  /** The database stays up, the rules are different ones, and so are the ids minted for their jobs. */
  predicate Healthy(s: Store, project: string, todo: seq<Rule>, mine: Rows, e: Env) {
    && !e.commit.outage && mine.jobs.Keys !! s.rows.jobs.Keys
    && (forall rule :: rule in todo ==>
          && !e.choose(rule).outage && !e.judge(rule).outage
          && Key(project, e.choose(rule).job) !in s.rows.jobs && Key(project, e.choose(rule).job) !in mine.jobs)
    && forall i, j :: 0 <= i < j < |todo| ==>
         todo[i].id != todo[j].id && e.choose(todo[i]).job != e.choose(todo[j]).job
  }

  /** Some rule among `todo` was chosen and its job has this key. */
  ghost predicate JobOfChosen(s: Store, project: string, trace: string, todo: seq<Rule>, e: Env, k: Key) {
    exists rule :: rule in todo && Chosen(s, project, trace, rule, e) && k == Key(project, e.choose(rule).job)
  }

  lemma KeyedApart(prefix: string, a: string, b: string)
    ensures prefix + a == prefix + b <==> a == b
  {
    if prefix + a == prefix + b {
      assert (prefix + a)[|prefix|..] == a && (prefix + b)[|prefix|..] == b;
    }
  }

  /** Passing one rule by, chosen or not, leaves the others as they were. */
  lemma OthersChosen(s: Store, claims: map<Claim, nat>, project: string, trace: string, rule: Rule, other: Rule, e: Env)
    requires other.id != rule.id
    requires claims.Keys == s.claims.Keys + {ClaimKey(project, trace, rule.id)} || claims == s.claims
    ensures Chosen(s.(claims := claims), project, trace, other, e) <==> Chosen(s, project, trace, other, e)
  {
    KeyedApart("eval:done:" + project + ":" + trace + ":", rule.id, other.id);
  }

  /** A finished job of the rule on the trace. */
  predicate IsJobOf(job: Job, trace: string, rule: Rule) {
    job.rule == rule.id && job.trace == trace && job.version == rule.version && job.status != RUNNING
  }

  /** A chosen rule is claimed and judged in two steps, and leaves one finished job. */
  lemma ChosenSteps(s: Store, project: string, trace: string, todo: seq<Rule>, mine: Rows, e: Env)
    returns (t: Store, after: Rows, job: Job)
    requires todo != [] && Healthy(s, project, todo, mine, e) && Chosen(s, project, trace, todo[0], e)
    ensures Drive(s, Choosing(project, trace, todo, mine), e) == Drive(t, Choosing(project, trace, todo[1..], after), e)
    ensures t == s.(claims := t.claims, grants := t.grants)
    ensures t.claims.Keys == s.claims.Keys + {ClaimKey(project, trace, todo[0].id)}
    ensures IsJobOf(job, trace, todo[0]) && after.jobs == mine.jobs[Key(project, e.choose(todo[0]).job) := job]
  {
    hide Drive, MarkOf;
    var rule := todo[0];
    assert rule in todo;
    var key := Key(project, e.choose(rule).job);
    var p := Choosing(project, trace, todo, mine);
    DriveStep(s, p, e);
    var (u, q) := Step(s, p, e.choose(rule));
    DriveStep(u, q, e);
    var (v, r) := Step(u, q, e.judge(rule));
    t, after, job := v, r.mine, r.mine.jobs[key];
  }

  lemma PassedBy(s: Store, project: string, trace: string, todo: seq<Rule>, mine: Rows, e: Env)
    requires todo != [] && !Chosen(s, project, trace, todo[0], e)
    ensures Drive(s, Choosing(project, trace, todo, mine), e) == Drive(s, Choosing(project, trace, todo[1..], mine), e)
  {
    DriveStep(s, Choosing(project, trace, todo, mine), e);
  }

  lemma StillHealthy(s: Store, t: Store, project: string, todo: seq<Rule>, mine: Rows, after: Rows, e: Env)
    requires todo != [] && Healthy(s, project, todo, mine, e) && t.rows == s.rows
    requires after.jobs.Keys == mine.jobs.Keys || after.jobs.Keys == mine.jobs.Keys + {Key(project, e.choose(todo[0]).job)}
    ensures Healthy(t, project, todo[1..], after, e)
  {
    assert todo[0] in todo;
    forall i, j | 0 <= i < j < |todo[1..]|
      ensures todo[1..][i].id != todo[1..][j].id && e.choose(todo[1..][i]).job != e.choose(todo[1..][j]).job
    {
      assert todo[1..][i] == todo[i + 1] && todo[1..][j] == todo[j + 1];
    }
    forall rule | rule in todo[1..] ensures rule in todo && e.choose(rule).job != e.choose(todo[0]).job {
      var i :| 0 <= i < |todo[1..]| && todo[1..][i] == rule;
      assert todo[i + 1] == rule;
    }
  }

  /** Some rule among `todo` was chosen and this is its claim. */
  ghost predicate ClaimOfChosen(s: Store, project: string, trace: string, todo: seq<Rule>, e: Env, c: Claim) {
    exists rule :: rule in todo && Chosen(s, project, trace, rule, e) &&
                   c == "eval:done:" + project + ":" + trace + ":" + rule.id
  }

  /** What is chosen among the rules: the first, if it is, and what is chosen afterwards. */
  lemma FirstOrLater(s: Store, u: Store, project: string, trace: string, todo: seq<Rule>, mine: Rows, e: Env)
    requires todo != [] && Healthy(s, project, todo, mine, e) && u == s.(claims := u.claims, grants := u.grants)
    requires if Chosen(s, project, trace, todo[0], e)
             then u.claims.Keys == s.claims.Keys + {ClaimKey(project, trace, todo[0].id)} else u.claims == s.claims
    ensures forall rule :: rule in todo <==> rule == todo[0] || rule in todo[1..]
    ensures forall rule :: rule in todo[1..] ==>
              (Chosen(u, project, trace, rule, e) <==> Chosen(s, project, trace, rule, e))
    ensures forall k :: JobOfChosen(s, project, trace, todo, e, k) <==>
              || (Chosen(s, project, trace, todo[0], e) && k == Key(project, e.choose(todo[0]).job))
              || JobOfChosen(u, project, trace, todo[1..], e, k)
    ensures forall c :: ClaimOfChosen(s, project, trace, todo, e, c) <==>
              || (Chosen(s, project, trace, todo[0], e) && c == ClaimKey(project, trace, todo[0].id))
              || ClaimOfChosen(u, project, trace, todo[1..], e, c)
  {
    assert todo == [todo[0]] + todo[1..];
    forall rule | rule in todo[1..]
      ensures Chosen(u, project, trace, rule, e) <==> Chosen(s, project, trace, rule, e)
    {
      var i :| 0 <= i < |todo[1..]| && todo[1..][i] == rule;
      assert todo[i + 1] == rule;
      OthersChosen(s, u.claims, project, trace, todo[0], rule, e);
      assert Chosen(u, project, trace, rule, e) == Chosen(s.(claims := u.claims), project, trace, rule, e);
    }
    hide Chosen, Healthy;
  }

  /** While the database stays up, one evaluation runs exactly the rules that sampling and filter
      select and whose claim is free: each leaves one finished job, no other row of job_executions
      appears or changes, no score that was there changes, and just their claims are taken. */
  lemma {:induction false} EvaluatesChosen(s: Store, project: string, trace: string, todo: seq<Rule>, mine: Rows, e: Env)
    requires Healthy(s, project, todo, mine, e)
    ensures var t := Drive(s, Choosing(project, trace, todo, mine), e);
            && (forall k :: k in t.rows.jobs <==>
                  k in s.rows.jobs || k in mine.jobs || JobOfChosen(s, project, trace, todo, e, k))
            && (forall k :: k in s.rows.jobs ==> t.rows.jobs[k] == s.rows.jobs[k])
            && (forall k :: k in mine.jobs ==> t.rows.jobs[k] == mine.jobs[k])
            && (forall k :: k in s.rows.scores ==> k in t.rows.scores && t.rows.scores[k] == s.rows.scores[k])
            && (forall rule :: rule in todo && Chosen(s, project, trace, rule, e) ==>
                  IsJobOf(t.rows.jobs[Key(project, e.choose(rule).job)], trace, rule))
            && forall c :: c in t.claims <==> c in s.claims || ClaimOfChosen(s, project, trace, todo, e, c)
    decreases |todo|
  {
    hide Drive;
    if todo == [] {
      NothingToDo(s, project, trace, mine, e);
    } else {
      hide Healthy, IsJobOf, Chosen, ClaimKey, JobOfChosen, ClaimOfChosen;
      var u, after := s, mine;
      if Chosen(s, project, trace, todo[0], e) {
        var job;
        u, after, job := ChosenSteps(s, project, trace, todo, mine, e);
        assert after.jobs[Key(project, e.choose(todo[0]).job)] == job;
      } else {
        PassedBy(s, project, trace, todo, mine, e);
      }
      StillHealthy(s, u, project, todo, mine, after, e);
      FirstOrLater(s, u, project, trace, todo, mine, e);
      EvaluatesChosen(u, project, trace, todo[1..], after, e);
      var t := Drive(s, Choosing(project, trace, todo, mine), e);
      forall rule | rule in todo && Chosen(s, project, trace, rule, e)
        ensures IsJobOf(t.rows.jobs[Key(project, e.choose(rule).job)], trace, rule)
      {
        if rule != todo[0] { assert rule in todo[1..]; }
      }
    }
  }

  lemma NothingToDo(s: Store, project: string, trace: string, mine: Rows, e: Env)
    requires Healthy(s, project, [], mine, e)
    ensures Drive(s, Choosing(project, trace, [], mine), e) == s.(rows := Merged(s.rows, mine))
  {
    DriveStep(s, Choosing(project, trace, [], mine), e);
    DriveIdle(s.(rows := Merged(s.rows, mine)), e);
  }

  class Worker {
    var now: int
    var claims: map<Claim, nat>
    var rows: Rows           // committed
    var mine: Rows           // of the open transaction
    ghost var grants: seq<Grant>
    var minted: nat          // == |grants|

    constructor (s: Store)
      ensures Contents() == s && Valid()
    {
      now, claims, rows, mine, grants := s.now, s.claims, s.rows, NONE, s.grants;
      minted := |s.grants|;
    }

    ghost predicate Valid()
      reads this
    {
      minted == |grants|
    }

    ghost function Contents(): Store
      reads this
    {
      Store(now, claims, grants, rows)
    }

    /** `already_evaluated`: SET NX. */
    method AlreadyEvaluated(claim: Claim) returns (taken: bool)
      requires Valid()
      modifies this`claims, this`grants, this`minted
      ensures Valid() && (taken <==> claim in old(claims))
      ensures taken ==> claims == old(claims) && grants == old(grants)
      ensures !taken ==> claims == old(claims)[claim := |old(grants)|] && grants == old(grants) + [Grant(claim, now)]
    {
      taken := claim in claims;
      if !taken {
        claims := claims[claim := minted];
        grants := grants + [Grant(claim, now)];
        minted := minted + 1;
      }
    }

    /** The branches on `score_data_type`; None when `float` raises. */
    static method Converted(dataType: DataType, raw: Answer) returns (mark: Option<Mark>)
      ensures mark == MarkOf(dataType, raw)
    {
      if dataType == CATEGORICAL {
        mark := Some(Category(Shown(raw)));
      } else if dataType == BOOLEAN {
        var yes := raw == Truth(true) || (raw.Number? && raw.value == 1.0) ||
                   (raw.Words? && (raw.text == "true" || raw.text == "1"));
        mark := Some(Value(if yes then 1.0 else 0.0));
      } else {
        mark := match raw
          case Number(value, _) => Some(Value(value))
          case Words(_, read) => if read.Some? then Some(Value(read.value)) else None
          case Truth(yes) => Some(Value(if yes then 1.0 else 0.0))
          case Other(_) => None;
      }
    }

    /** `run_rule`; `ok` is false when the database fails or the job id is taken. */
    method RunRule(project: string, trace: string, rule: Rule, grant: nat, chosen: Reading, judged: Reading)
      returns (ok: bool)
      modifies this`mine
      ensures ok <==> !chosen.outage && Key(project, chosen.job) !in rows.jobs
                      && Key(project, chosen.job) !in old(mine).jobs && !judged.outage
      ensures ok ==>
                var running := old(mine).(jobs := old(mine).jobs[Key(project, chosen.job) := Running(trace, rule, grant)]);
                mine == Judged(running, project, trace, rule, chosen.job, grant, judged.verdict)
    {
      var key := Key(project, chosen.job);
      if chosen.outage || key in rows.jobs || key in mine.jobs { return false; }
      mine := mine.(jobs := mine.jobs[key := Running(trace, rule, grant)]);
      if judged.outage { return false; }
      var mark := None;
      if judged.verdict.Some? {
        mark := Converted(rule.dataType, judged.verdict.value);
      }
      if mark.None? {
        mine := mine.(jobs := mine.jobs[key := mine.jobs[key].(status := ERROR)]);
        return true;
      }
      var scoreKey := Key(project, chosen.job + ":score");
      if scoreKey !in mine.scores {
        var score := Score(trace, rule.scoreName, rule.version, rule.dataType, mark.value);
        mine := mine.(scores := mine.scores[scoreKey := score]);
      }
      mine := mine.(jobs := mine.jobs[key := mine.jobs[key].(status := COMPLETED, scoreId := Some(scoreKey.id))]);
      return true;
    }

    /** `async with engine.begin(): evaluate_trace(...)` */
    method EvaluateTrace(project: string, trace: string, rules: seq<Rule>, e: Env)
      requires Valid()
      modifies this
      ensures Valid() && Contents() == Drive(old(Contents()), Choosing(project, trace, rules, NONE), e)
    {
      hide Drive, Judged, Merged;
      mine := NONE;
      for i := 0 to |rules|
        invariant Valid()
        invariant Drive(Contents(), Choosing(project, trace, rules[i..], mine), e) ==
                  Drive(old(Contents()), Choosing(project, trace, rules, NONE), e)
      {
        var rule := rules[i];
        var rest := rules[i + 1..];
        assert rules[i..][0] == rule && rules[i..][1..] == rest;
        DriveStep(Contents(), Choosing(project, trace, rules[i..], mine), e);
        var chosen := e.choose(rule);
        if !chosen.selected { continue; }
        ghost var before, uncommitted := Contents(), mine;
        var grant := minted;
        var taken := AlreadyEvaluated(ClaimKey(project, trace, rule.id));
        if taken { continue; }
        var ok := RunRule(project, trace, rule, grant, chosen, e.judge(rule));
        DriveIdle(Contents(), e);
        ghost var running := uncommitted.(jobs := uncommitted.jobs[Key(project, chosen.job) := Running(trace, rule, grant)]);
        DriveStep(Contents(), Judging(project, trace, rule, chosen.job, grant, rest, running), e);
        if !ok {
          mine := NONE;
          return;
        }
      }
      assert rules[|rules|..] == [];
      DriveStep(Contents(), Choosing(project, trace, [], mine), e);
      if !e.commit.outage && mine.jobs.Keys !! rows.jobs.Keys {
        rows := Merged(rows, mine);
      }
      mine := NONE;
      DriveIdle(Contents(), e);
    }
  }
}
