/** The SDK's span stack: nested `trace`, `span` and `observe` blocks over two context
    variables emit flat events, from which `get_trace` rebuilds the tree of calls. */
module Spans {
  import opened Tables
  import opened Forest

  /** An instrumented program. A block's body may raise, and `Try` swallows what it raises. */
  datatype Stmt =
    | TraceBlock(given: Option<Id>, body: seq<Stmt>)
    | SpanBlock(body: seq<Stmt>)
    | Observed(body: seq<Stmt>)
    | Try(body: seq<Stmt>)
    | Raise

  datatype Event =
    | TraceStart(trace: Id, at: int)
    | Create(id: Id, trace: Id, parent: Option<Id>, start: int)
    | End(id: Id, trace: Id, end: int, error: bool)

  // --- what was called, as a tree --------------------------------------------------------

  /** A call of an instrumented block, or a trace opened around some. */
  datatype Node =
    | Call(id: Id, start: int, end: int, error: bool, kids: seq<Node>)
    | Block(trace: Id, at: int, kids: seq<Node>)

  datatype Outcome = Outcome(log: seq<Node>, raised: bool, minted: nat, ticks: nat)

  /** `uuid(k)` is the k-th id minted and `now(m)` the m-th reading of the clock. */
  datatype Supply = Supply(uuid: nat -> Id, now: nat -> int)

  ghost predicate Sound(s: Supply) {
    && (forall i, j :: s.uuid(i) == s.uuid(j) ==> i == j)
    && (forall i, j :: i < j ==> s.now(i) < s.now(j))
  }

  function CallOf(s: Supply, body: seq<Stmt>, k: nat, m: nat): (r: Outcome)
    decreases body, 1
  {
    var inner := Meaning(s, body, true, k + 1, m + 1);
    Outcome([Call(s.uuid(k), s.now(m), s.now(inner.ticks), inner.raised, inner.log)],
            inner.raised, inner.minted, inner.ticks + 1)
  }

  /** A call outside any trace gets a trace of its own. */
  function SpanOf(s: Supply, body: seq<Stmt>, open: bool, k: nat, m: nat): Outcome
    decreases body, 2
  {
    if open then CallOf(s, body, k, m)
    else
      var call := CallOf(s, body, k + 1, m + 1);
      call.(log := [Block(s.uuid(k), s.now(m), call.log)])
  }

  /** `trace_id or str(uuid.uuid4())` */
  predicate Usable(given: Option<Id>) {
    given.Some? && given.value != ""
  }

  function TraceOf(s: Supply, given: Option<Id>, body: seq<Stmt>, k: nat, m: nat): Outcome
    decreases body, 1
  {
    var tid := if Usable(given) then given.value else s.uuid(k);
    var inner := Meaning(s, body, true, if Usable(given) then k else k + 1, m + 1);
    inner.(log := [Block(tid, s.now(m), inner.log)])
  }

  function StmtOf(s: Supply, st: Stmt, open: bool, k: nat, m: nat): Outcome
    decreases st, 0
  {
    match st
    case TraceBlock(given, b) => TraceOf(s, given, b, k, m)
    case SpanBlock(b) => SpanOf(s, b, open, k, m)
    case Observed(b) => SpanOf(s, b, open, k, m)
    case Try(b) => Meaning(s, b, open, k, m).(raised := false)
    case Raise => Outcome([], true, k, m)
  }

  /** What a program calls: no context variables, nesting follows the program text. */
  function Meaning(s: Supply, body: seq<Stmt>, open: bool, k: nat, m: nat): Outcome
    decreases body, 0
  {
    if body == [] then Outcome([], false, k, m)
    else
      var first := StmtOf(s, body[0], open, k, m);
      if first.raised then first
      else
        var rest := Meaning(s, body[1..], open, first.minted, first.ticks);
        rest.(log := first.log + rest.log)
  }

  // --- what a program lets escape -----------------------------------------------------------

  /** The statement raises, by the program text alone. */
  predicate Escapes(st: Stmt) {
    match st
    case Raise => true
    case Try(_) => false
    case TraceBlock(_, b) => SomeEscapes(b)
    case SpanBlock(b) => SomeEscapes(b)
    case Observed(b) => SomeEscapes(b)
  }

  predicate SomeEscapes(body: seq<Stmt>) {
    exists i :: 0 <= i < |body| && Escapes(body[i])
  }

  lemma SomeEscapesCons(body: seq<Stmt>)
    ensures SomeEscapes(body) <==> body != [] && (Escapes(body[0]) || SomeEscapes(body[1..]))
  {
    if SomeEscapes(body) && !Escapes(body[0]) {
      var i :| 0 <= i < |body| && Escapes(body[i]);
      assert body[1..][i - 1] == body[i];
    }
  }

  lemma {:induction false} StmtRaises(s: Supply, st: Stmt, open: bool, k: nat, m: nat)
    ensures StmtOf(s, st, open, k, m).raised <==> Escapes(st)
    decreases st, 0
  {
    match st
    case TraceBlock(given, b) =>
      RaisesIffEscapes(s, b, true, if Usable(given) then k else k + 1, m + 1);
    case SpanBlock(b) => SpanRaises(s, b, open, k, m);
    case Observed(b) => SpanRaises(s, b, open, k, m);
    case Try(b) =>
    case Raise =>
  }

  lemma {:induction false} SpanRaises(s: Supply, body: seq<Stmt>, open: bool, k: nat, m: nat)
    ensures SpanOf(s, body, open, k, m).raised <==> SomeEscapes(body)
    decreases body, 1
  {
    hide Meaning, SomeEscapes;
    if open {
      RaisesIffEscapes(s, body, true, k + 1, m + 1);
    } else {
      RaisesIffEscapes(s, body, true, k + 2, m + 2);
    }
  }

  /** A program raises if and only if it lets something escape: blocks raise again what their
      bodies raise, only `Try` stops it. */
  lemma {:induction false} RaisesIffEscapes(s: Supply, body: seq<Stmt>, open: bool, k: nat, m: nat)
    ensures Meaning(s, body, open, k, m).raised <==> SomeEscapes(body)
    decreases body, 0
  {
    hide StmtOf, Escapes, SomeEscapes;
    SomeEscapesCons(body);
    if body != [] {
      var first := StmtOf(s, body[0], open, k, m);
      StmtRaises(s, body[0], open, k, m);
      if !first.raised { RaisesIffEscapes(s, body[1..], open, first.minted, first.ticks); }
    }
  }

  /** Statements after one that escapes are not run: they call nothing, and use no id and no
      reading of the clock. */
  lemma {:induction false} NothingAfterEscape(s: Supply, body: seq<Stmt>, i: nat, open: bool, k: nat, m: nat)
    requires i < |body| && Escapes(body[i])
    ensures Meaning(s, body, open, k, m) == Meaning(s, body[..i + 1], open, k, m)
  {
    hide StmtOf, Escapes;
    var start := body[..i + 1];
    assert start[0] == body[0] && start[1..] == body[1..][..i];
    StmtRaises(s, body[0], open, k, m);
    var first := StmtOf(s, body[0], open, k, m);
    if !first.raised {
      assert body[1..][i - 1] == body[i];
      NothingAfterEscape(s, body[1..], i - 1, open, first.minted, first.ticks);
    }
  }

  /** The events a log stands for, inside trace `cur` and below `parent`. */
  function EventsOf(log: seq<Node>, cur: Id, parent: Option<Id>): seq<Event> {
    if log == [] then []
    else
      (match log[0]
       case Call(id, start, end, error, kids) =>
         [Create(id, cur, parent, start)] + EventsOf(kids, cur, Some(id)) + [End(id, cur, end, error)]
       case Block(trace, at, kids) =>
         [TraceStart(trace, at)] + EventsOf(kids, trace, None)) +
      EventsOf(log[1..], cur, parent)
  }

  lemma {:induction false} EventsConcat(xs: seq<Node>, ys: seq<Node>, cur: Id, parent: Option<Id>)
    ensures EventsOf(xs + ys, cur, parent) == EventsOf(xs, cur, parent) + EventsOf(ys, cur, parent)
  {
    if xs == [] {
      assert xs + ys == ys;
    } else {
      assert (xs + ys)[1..] == xs[1..] + ys;
      EventsConcat(xs[1..], ys, cur, parent);
    }
  }

  lemma OneCall(c: Node, cur: Id, parent: Option<Id>)
    requires c.Call?
    ensures EventsOf([c], cur, parent) ==
            [Create(c.id, cur, parent, c.start)] + EventsOf(c.kids, cur, Some(c.id)) + [End(c.id, cur, c.end, c.error)]
  {
  }

  lemma OneBlock(b: Node, cur: Id, parent: Option<Id>)
    requires b.Block?
    ensures EventsOf([b], cur, parent) == [TraceStart(b.trace, b.at)] + EventsOf(b.kids, b.trace, None)
  {
  }

  lemma SpanEvents(s: Supply, body: seq<Stmt>, open: bool, k: nat, m: nat, cur: Id, parent: Option<Id>)
    ensures open ==>
              var inner := Meaning(s, body, true, k + 1, m + 1);
              EventsOf(SpanOf(s, body, open, k, m).log, cur, parent) ==
              [Create(s.uuid(k), cur, parent, s.now(m))] + EventsOf(inner.log, cur, Some(s.uuid(k))) +
              [End(s.uuid(k), cur, s.now(inner.ticks), inner.raised)]
    ensures !open ==>
              var inner := Meaning(s, body, true, k + 2, m + 2);
              EventsOf(SpanOf(s, body, open, k, m).log, cur, parent) ==
              [TraceStart(s.uuid(k), s.now(m)), Create(s.uuid(k + 1), s.uuid(k), None, s.now(m + 1))] +
              EventsOf(inner.log, s.uuid(k), Some(s.uuid(k + 1))) +
              [End(s.uuid(k + 1), s.uuid(k), s.now(inner.ticks), inner.raised)]
  {
    hide Meaning, EventsOf;
    if open {
      OneCall(CallOf(s, body, k, m).log[0], cur, parent);
    } else {
      OneCall(CallOf(s, body, k + 1, m + 1).log[0], s.uuid(k), None);
      OneBlock(SpanOf(s, body, open, k, m).log[0], cur, parent);
    }
  }

  lemma MeaningStep(s: Supply, body: seq<Stmt>, open: bool, k: nat, m: nat, cur: Id, parent: Option<Id>)
    ensures body == [] ==>
              Meaning(s, body, open, k, m) == Outcome([], false, k, m) && EventsOf([], cur, parent) == []
    ensures body != [] ==>
              var first := StmtOf(s, body[0], open, k, m);
              var rest := Meaning(s, body[1..], open, first.minted, first.ticks);
              var whole := Meaning(s, body, open, k, m);
              if first.raised then whole == first
              else
                && whole.raised == rest.raised && whole.minted == rest.minted && whole.ticks == rest.ticks
                && EventsOf(whole.log, cur, parent) ==
                   EventsOf(first.log, cur, parent) + EventsOf(rest.log, cur, parent)
  {
    if body != [] {
      var first := StmtOf(s, body[0], open, k, m);
      EventsConcat(first.log, Meaning(s, body[1..], open, first.minted, first.ticks).log, cur, parent);
    }
  }

  // --- the SDK ----------------------------------------------------------------------------

  class Client {
    const supply: Supply
    var traceVar: Option<Id>  // _trace_id
    var spanStack: seq<Id>    // _span_stack
    var queue: seq<Event>
    var minted: nat
    var ticks: nat

    constructor (supply: Supply)
      ensures this.supply == supply && Nested() && traceVar.None?
      ensures queue == [] && minted == 0 && ticks == 0
    {
      this.supply := supply;
      traceVar, spanStack, queue, minted, ticks := None, [], [], 0, 0;
    }

    predicate Nested()
      reads this
    {
      traceVar.None? ==> spanStack == []
    }

    function Current(): Id
      reads this
    {
      if traceVar.None? then "" else traceVar.value
    }

    function Parent(): Option<Id>
      reads this
    {
      if spanStack == [] then None else Some(spanStack[|spanStack| - 1])
    }

    /** The events of `outcome` were enqueued, its ids and clock readings used up, and both
        context variables are back to what they were. */
    twostate predicate Emitted(outcome: Outcome)
      reads this
    {
      && traceVar == old(traceVar) && spanStack == old(spanStack)
      && queue == old(queue) + EventsOf(outcome.log, old(Current()), old(Parent()))
      && minted == outcome.minted && ticks == outcome.ticks
    }

    method Mint() returns (id: Id)
      modifies this`minted
      ensures id == supply.uuid(old(minted)) && minted == old(minted) + 1
    {
      id := supply.uuid(minted);
      minted := minted + 1;
    }

    method Now() returns (at: int)
      modifies this`ticks
      ensures at == supply.now(old(ticks)) && ticks == old(ticks) + 1
    {
      at := supply.now(ticks);
      ticks := ticks + 1;
    }

    /** `_start_span`: the tokens are what the two variables held before. */
    method StartSpan() returns (id: Id, tokenT: Option<Id>, tokenS: seq<Id>)
      requires Nested()
      modifies this
      ensures tokenT == old(traceVar) && tokenS == old(spanStack) && spanStack == tokenS + [id]
      ensures old(traceVar).Some? ==>
                && traceVar == old(traceVar)
                && id == supply.uuid(old(minted)) && minted == old(minted) + 1 && ticks == old(ticks) + 1
                && queue == old(queue) + [Create(id, traceVar.value, old(Parent()), supply.now(old(ticks)))]
      ensures old(traceVar).None? ==>
                && traceVar == Some(supply.uuid(old(minted)))
                && id == supply.uuid(old(minted) + 1) && minted == old(minted) + 2 && ticks == old(ticks) + 2
                && queue == old(queue) + [TraceStart(traceVar.value, supply.now(old(ticks))),
                                          Create(id, traceVar.value, None, supply.now(old(ticks) + 1))]
    {
      tokenT := traceVar;
      if traceVar.None? {
        var tid := Mint();
        var at := Now();
        queue := queue + [TraceStart(tid, at)];
        traceVar := Some(tid);
      }
      var parent := Parent();
      id := Mint();
      var start := Now();
      queue := queue + [Create(id, traceVar.value, parent, start)];
      tokenS := spanStack;
      spanStack := spanStack + [id];
    }

    /** `_end_span` */
    method EndSpan(id: Id, tid: Id, error: bool)
      modifies this`queue, this`ticks
      ensures ticks == old(ticks) + 1
      ensures queue == old(queue) + [End(id, tid, supply.now(old(ticks)), error)]
    {
      var end := Now();
      queue := queue + [End(id, tid, end, error)];
    }

    /** `with span(...)`: the body's exception is recorded and raised again. */
    method Span(body: seq<Stmt>) returns (raised: bool)
      requires Nested()
      modifies this
      ensures raised <==> SomeEscapes(body)
      ensures Emitted(SpanOf(supply, body, old(traceVar).Some?, old(minted), old(ticks)))
      decreases body, 1
    {
      hide Meaning, EventsOf;
      SpanEvents(supply, body, traceVar.Some?, minted, ticks, Current(), Parent());
      SpanRaises(supply, body, traceVar.Some?, minted, ticks);
      var id, tokenT, tokenS := StartSpan();
      var tid := traceVar.value;
      raised := Run(body);
      EndSpan(id, tid, raised);
      spanStack := tokenS;
      traceVar := tokenT;
    }

    /** `@observe` on a function whose body is `body`. */
    method Observe(body: seq<Stmt>) returns (raised: bool)
      requires Nested()
      modifies this
      ensures raised <==> SomeEscapes(body)
      ensures Emitted(SpanOf(supply, body, old(traceVar).Some?, old(minted), old(ticks)))
      decreases body, 1
    {
      hide Meaning, EventsOf, SomeEscapes;
      SpanEvents(supply, body, traceVar.Some?, minted, ticks, Current(), Parent());
      SpanRaises(supply, body, traceVar.Some?, minted, ticks);
      var id, tokenT, tokenS := StartSpan();
      var tid := traceVar.value;
      raised := Run(body);
      if raised {
        EndSpan(id, tid, true);
      } else {
        EndSpan(id, tid, false);
      }
      spanStack := tokenS;
      traceVar := tokenT;
    }

    /** `with trace(...)` */
    method Trace(given: Option<Id>, body: seq<Stmt>) returns (raised: bool)
      requires Nested()
      modifies this
      ensures raised <==> SomeEscapes(body)
      ensures Emitted(TraceOf(supply, given, body, old(minted), old(ticks)))
      ensures var tid := if given.Some? && given.value != "" then given.value else supply.uuid(old(minted));
              old(queue) + [TraceStart(tid, supply.now(old(ticks)))] <= queue
      decreases body, 1
    {
      hide Meaning, EventsOf;
      OneBlock(TraceOf(supply, given, body, minted, ticks).log[0], Current(), Parent());
      var tid: Id;
      if Usable(given) { tid := given.value; } else { tid := Mint(); }
      var at := Now();
      queue := queue + [TraceStart(tid, at)];
      var tokenT, tokenS := traceVar, spanStack;
      traceVar, spanStack := Some(tid), [];
      raised := Run(body);
      traceVar := tokenT;
      spanStack := tokenS;
    }

    method Step(st: Stmt) returns (raised: bool)
      requires Nested()
      modifies this
      ensures raised <==> Escapes(st)
      ensures Emitted(StmtOf(supply, st, old(traceVar).Some?, old(minted), old(ticks)))
      decreases st, 0
    {
      hide Meaning, SpanOf, TraceOf;
      match st
      case TraceBlock(given, b) => raised := Trace(given, b);
      case SpanBlock(b) => raised := Span(b);
      case Observed(b) => raised := Observe(b);
      case Try(b) =>
        var ignored := Run(b);
        raised := false;
      case Raise => raised := true;
    }

    /** A program's statements, in order; what one raises ends the sequence. */
    method Run(body: seq<Stmt>) returns (raised: bool)
      requires Nested()
      modifies this
      ensures raised <==> SomeEscapes(body)
      ensures Emitted(Meaning(supply, body, old(traceVar).Some?, old(minted), old(ticks)))
      decreases body, 0
    {
      hide StmtOf, Meaning, EventsOf, Escapes, SomeEscapes;
      MeaningStep(supply, body, traceVar.Some?, minted, ticks, Current(), Parent());
      SomeEscapesCons(body);
      if body != [] { StmtRaises(supply, body[0], traceVar.Some?, minted, ticks); }
      if body == [] { return false; }
      raised := Step(body[0]);
      if !raised {
        raised := Run(body[1..]);
      }
    }
  }
}
