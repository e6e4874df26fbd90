/** Every run of concurrent reviews behaves like one review at a time, in an order that respects real time. */
module EthicsLinearizability {
  import opened Wrappers
  import opened EthicsProtocol

  // ---------- the sequential service

  /** What the outside world does to one atomic review: an LLM verdict, a failure, or a cancellation. */
  datatype Input = Answered(v: Verdict) | Failure | Cancelled

  datatype Op = Op(task: nat, req: Request, input: Input, outcome: Outcome)

  /** One atomic review: a cached rejection is returned as it is, otherwise the verdict is cached and returned. */
  function Review(cache: map<Key, Verdict>, req: Request, input: Input)
    : (map<Key, Verdict>, Outcome)
  {
    if input.Cancelled? then (cache, Raised)
    else if req.key in cache && cache[req.key].decision == Reject then (cache, Returned(cache[req.key]))
    else match input
      case Answered(v) => (cache[req.key := v], Returned(v))
      case Failure => (cache, Raised)
  }

  function CacheAfter(ops: seq<Op>): map<Key, Verdict> {
    if ops == [] then map[]
    else Review(CacheAfter(ops[..|ops| - 1]), ops[|ops| - 1].req, ops[|ops| - 1].input).0
  }

  /** Every operation's recorded outcome is the one the sequential service gives. */
  predicate Sequential(ops: seq<Op>) {
    ops == []
    || (&& Sequential(ops[..|ops| - 1])
        && ops[|ops| - 1].outcome
           == Review(CacheAfter(ops[..|ops| - 1]), ops[|ops| - 1].req, ops[|ops| - 1].input).1)
  }

  lemma SequentialSnoc(ops: seq<Op>, op: Op)
    requires Sequential(ops) && op.outcome == Review(CacheAfter(ops), op.req, op.input).1
    ensures Sequential(ops + [op])
    ensures CacheAfter(ops + [op]) == Review(CacheAfter(ops), op.req, op.input).0
  {
    assert (ops + [op])[..|ops + [op]| - 1] == ops;
  }

  // ---------- histories

  /** Review `t` has its result in state `s`. */
  predicate HasResult(s: State, t: nat) {
    t < |s.tasks| && s.tasks[t].pc.Done?
  }

  /** Review `a` gave its result before review `b` was called. */
  ghost predicate Precedes(es: seq<Event>, a: nat, b: nat)
    requires Valid(es)
  {
    exists n: nat :: n <= |es| && GaveResultBy(es, n, a) && !CalledBy(es, n, b)
  }

  ghost predicate GaveResultBy(es: seq<Event>, n: nat, a: nat)
    requires Valid(es) && n <= |es|
  {
    ValidPrefix(es, n);
    HasResult(After(es[..n]), a)
  }

  ghost predicate CalledBy(es: seq<Event>, n: nat, b: nat)
    requires Valid(es) && n <= |es|
  {
    ValidPrefix(es, n);
    b < |After(es[..n]).tasks|
  }

  // ---------- what the environment did to a review

  /** The verdict was made from an LLM call that review `t` started and from the reply to it. */
  ghost predicate VerdictFrom(es: seq<Event>, t: nat, req: Request, v: Verdict) {
    exists hash, doc, id, now ::
      StartCall(t, hash) in es && Reply(t, doc, id, now) in es && MakeVerdict(req, hash, doc, id, now) == Some(v)
  }

  ghost predicate FailedIn(es: seq<Event>, t: nat, req: Request) {
    || PromptFails(t) in es
    || CallFails(t) in es
    || exists hash, doc, id, now :: Reply(t, doc, id, now) in es && MakeVerdict(req, hash, doc, id, now).None?
  }

  /** The input of an atomic review is something that really happened to that review during the run. */
  ghost predicate Caused(es: seq<Event>, op: Op) {
    match op.input
    case Answered(v) => VerdictFrom(es, op.task, op.req, v)
    case Failure => op.outcome.Raised? ==> FailedIn(es, op.task, op.req)
    case Cancelled => CancelWaiting(op.task) in es
  }

  /** The order contains review `t` with outcome `o`. */
  predicate Occurs(ops: seq<Op>, t: nat, o: Outcome) {
    exists i :: 0 <= i < |ops| && ops[i].task == t && ops[i].outcome == o
  }

  /** `ops` explains the run: one atomic order with the same cache, the same results and the same real-time order. */
  ghost predicate Linearization(es: seq<Event>, ops: seq<Op>)
    requires Valid(es)
  {
    var s := After(es);
    && Sequential(ops)
    && CacheAfter(ops) == s.cache
    && (forall i, j :: 0 <= i < j < |ops| ==> ops[i].task != ops[j].task)
    && (forall i :: 0 <= i < |ops| ==> ops[i].task < |s.tasks| && ops[i].req == s.tasks[ops[i].task].req)
    && (forall i :: 0 <= i < |ops| ==> Caused(es, ops[i]))
    && (forall t: nat :: HasResult(s, t) ==> Occurs(ops, t, s.tasks[t].pc.result))
    && (forall i, j :: 0 <= i < |ops| && 0 <= j < |ops| && Precedes(es, ops[i].task, ops[j].task) ==> i < j)
  }

  // ---------- the linearization points

  /** The atomic review that takes effect with event `e`, if any. */
  function Effect(s: State, e: Event): seq<Op>
    requires Enabled(s, e)
  {
    match e
    case FirstCheck(t) =>
      var req := s.tasks[t].req;
      if IsRejected(s.cache, req.key) then [Op(t, req, Failure, Returned(s.cache[req.key]))] else []
    case SecondCheck(t) =>
      var req := s.tasks[t].req;
      if IsRejected(s.cache, req.key) then [Op(t, req, Failure, Returned(s.cache[req.key]))] else []
    case PromptFails(t) => [Op(t, s.tasks[t].req, Failure, Raised)]
    case CallFails(t) => [Op(t, s.tasks[t].req, Failure, Raised)]
    case Reply(t, doc, id, now) =>
      var made := MakeVerdict(s.tasks[t].req, s.tasks[t].pc.hash, doc, id, now);
      if made.None? then [Op(t, s.tasks[t].req, Failure, Raised)] else []
    case Write(t) => [Op(t, s.tasks[t].req, Answered(s.tasks[t].pc.verdict), Returned(s.tasks[t].pc.verdict))]
    case CancelWaiting(t) => [Op(t, s.tasks[t].req, Cancelled, Raised)]
    case _ => []
  }

  function Order(es: seq<Event>): seq<Op>
    requires Valid(es)
  {
    if es == [] then [] else
      var before := es[..|es| - 1];
      Order(before) + Effect(After(before), es[|es| - 1])
  }

  /** The outcome that is settled for a review, once its effect has taken place. */
  function Settled(pc: Pc): Option<Outcome> {
    match pc
    case Leaving(o) => Some(o)
    case Done(o) => Some(o)
    case _ => None
  }

  /** The reviews of an order are different, settled reviews of the state, with their own requests. */
  ghost predicate Places(s: State, ops: seq<Op>) {
    && (forall i, j :: 0 <= i < j < |ops| ==> ops[i].task != ops[j].task)
    && (forall i :: 0 <= i < |ops| ==>
          && ops[i].task < |s.tasks| && ops[i].req == s.tasks[ops[i].task].req
          && Settled(s.tasks[ops[i].task].pc).Some?)
  }

  /** What relates the order so far to the state reached. */
  ghost predicate Explains(s: State, ops: seq<Op>) {
    && Sequential(ops) && CacheAfter(ops) == s.cache && Places(s, ops)
    && (forall t: nat :: t < |s.tasks| && Settled(s.tasks[t].pc).Some? ==> Occurs(ops, t, Settled(s.tasks[t].pc).value))
  }

  /** A step settles its own review, if it has an effect, and leaves every settled outcome as it is. */
  lemma StepSettles(s: State, e: Event)
    requires Inv(s) && Enabled(s, e)
    ensures |Effect(s, e)| <= 1
    ensures |Effect(s, e)| == 1 ==>
              var op := Effect(s, e)[0];
              && op.task < |s.tasks| && op.req == s.tasks[op.task].req
              && Settled(s.tasks[op.task].pc).None? && Settled(Step(s, e).tasks[op.task].pc) == Some(op.outcome)
              && Review(s.cache, op.req, op.input) == (Step(s, e).cache, op.outcome)
    ensures Effect(s, e) == [] ==> Step(s, e).cache == s.cache
    ensures forall t: nat :: t < |s.tasks| ==> t < |Step(s, e).tasks| && Step(s, e).tasks[t].req == s.tasks[t].req
    ensures forall t: nat :: t < |s.tasks| && (Effect(s, e) == [] || Effect(s, e)[0].task != t) ==>
              Settled(Step(s, e).tasks[t].pc) == Settled(s.tasks[t].pc)
    ensures forall t: nat :: |s.tasks| <= t < |Step(s, e).tasks| ==> Settled(Step(s, e).tasks[t].pc).None?
  {
    if !e.Invoke? {
      assert TaskInv(s, e.t);
    }
  }

  lemma OccursLater(ops: seq<Op>, more: seq<Op>, t: nat, o: Outcome)
    requires Occurs(ops, t, o)
    ensures Occurs(ops + more, t, o)
  {
    var i :| 0 <= i < |ops| && ops[i].task == t && ops[i].outcome == o;
    assert (ops + more)[i] == ops[i];
  }

  /** A step without effect changes neither the cache nor any settled outcome. */
  lemma {:induction false} QuietStepExplained(s: State, e: Event, ops: seq<Op>)
    requires Inv(s) && Enabled(s, e) && Explains(s, ops) && Effect(s, e) == []
    ensures Explains(Step(s, e), ops)
  {
    StepSettles(s, e);
  }

  lemma EffectPlaces(s: State, e: Event, ops: seq<Op>)
    requires Inv(s) && Enabled(s, e) && Places(s, ops) && |Effect(s, e)| == 1
    ensures Places(Step(s, e), ops + Effect(s, e))
  {
    StepSettles(s, e);
    var op, s' := Effect(s, e)[0], Step(s, e);
    forall i | 0 <= i < |ops|
      ensures ops[i].task != op.task && ops[i].task < |s'.tasks| && ops[i].req == s'.tasks[ops[i].task].req
      ensures Settled(s'.tasks[ops[i].task].pc).Some?
    {
      assert Settled(s.tasks[ops[i].task].pc).Some?;
    }
  }

  lemma EffectOccurs(s: State, e: Event, ops: seq<Op>, t: nat)
    requires Inv(s) && Enabled(s, e) && |Effect(s, e)| == 1
    requires t < |Step(s, e).tasks| && Settled(Step(s, e).tasks[t].pc).Some?
    requires t < |s.tasks| && Settled(s.tasks[t].pc).Some? ==> Occurs(ops, t, Settled(s.tasks[t].pc).value)
    ensures Occurs(ops + Effect(s, e), t, Settled(Step(s, e).tasks[t].pc).value)
  {
    StepSettles(s, e);
    if Effect(s, e)[0].task == t {
      assert (ops + Effect(s, e))[|ops|] == Effect(s, e)[0];
    } else {
      OccursLater(ops, Effect(s, e), t, Settled(s.tasks[t].pc).value);
    }
  }

  /** A step with an effect appends the review that takes effect, which no earlier one was. */
  lemma {:induction false} EffectExplained(s: State, e: Event, ops: seq<Op>)
    requires Inv(s) && Enabled(s, e) && Explains(s, ops) && |Effect(s, e)| == 1
    ensures Explains(Step(s, e), ops + Effect(s, e))
  {
    assert Sequential(ops + Effect(s, e)) && CacheAfter(ops + Effect(s, e)) == Step(s, e).cache by {
      StepSettles(s, e);
      assert Effect(s, e) == [Effect(s, e)[0]];
      SequentialSnoc(ops, Effect(s, e)[0]);
    }
    EffectPlaces(s, e, ops);
    forall t: nat | t < |Step(s, e).tasks| && Settled(Step(s, e).tasks[t].pc).Some?
      ensures Occurs(ops + Effect(s, e), t, Settled(Step(s, e).tasks[t].pc).value)
    {
      EffectOccurs(s, e, ops, t);
    }
  }

  lemma {:induction false} StepExplained(s: State, e: Event, ops: seq<Op>)
    requires Inv(s) && Enabled(s, e) && Explains(s, ops)
    ensures Explains(Step(s, e), ops + Effect(s, e))
  {
    StepSettles(s, e);
    if Effect(s, e) == [] {
      assert ops + Effect(s, e) == ops;
      QuietStepExplained(s, e, ops);
    } else {
      EffectExplained(s, e, ops);
    }
  }

  lemma {:induction false} OrderExplains(es: seq<Event>)
    requires Valid(es)
    ensures Explains(After(es), Order(es))
  {
    if es == [] {
    } else {
      var before := es[..|es| - 1];
      ReachableInv(before);
      OrderExplains(before);
      StepExplained(After(before), es[|es| - 1], Order(before));
    }
  }

  /** A review's place in the protocol is backed by the events of the run. */
  ghost predicate Backed(es: seq<Event>, t: nat, task: Task) {
    match task.pc
    case Calling(hash) => StartCall(t, hash) in es
    case Deciding(v) => VerdictFrom(es, t, task.req, v)
    case _ => true
  }

  lemma BackedLater(es: seq<Event>, e: Event, t: nat, task: Task)
    requires Backed(es, t, task)
    ensures Backed(es + [e], t, task)
  {
    if task.pc.Deciding? {
      var v := task.pc.verdict;
      var hash, doc, id, now :|
        StartCall(t, hash) in es && Reply(t, doc, id, now) in es
        && MakeVerdict(task.req, hash, doc, id, now) == Some(v);
      assert StartCall(t, hash) in es + [e] && Reply(t, doc, id, now) in es + [e];
    }
  }

  lemma CausedLater(es: seq<Event>, e: Event, op: Op)
    requires Caused(es, op)
    ensures Caused(es + [e], op)
  {
    var later := es + [e];
    match op.input
    case Answered(v) => BackedLater(es, e, op.task, Task(op.req, Deciding(v)));
    case Failure =>
      if op.outcome.Raised? && PromptFails(op.task) !in es && CallFails(op.task) !in es {
        var hash, doc, id, now :|
          Reply(op.task, doc, id, now) in es && MakeVerdict(op.req, hash, doc, id, now).None?;
        assert Reply(op.task, doc, id, now) in later;
      }
    case Cancelled =>
  }

  lemma {:induction false} TasksBacked(es: seq<Event>)
    requires Valid(es)
    ensures forall t: nat :: t < |After(es).tasks| ==> Backed(es, t, After(es).tasks[t])
  {
    if es == [] {
    } else {
      var before, e := es[..|es| - 1], es[|es| - 1];
      var s := After(before);
      assert es == before + [e];
      TasksBacked(before);
      forall t: nat | t < |After(es).tasks| ensures Backed(es, t, After(es).tasks[t]) {
        StepBacked(before, s, e, t);
      }
    }
  }

  lemma StepBacked(before: seq<Event>, s: State, e: Event, t: nat)
    requires Enabled(s, e) && t < |Step(s, e).tasks|
    requires t < |s.tasks| ==> Backed(before, t, s.tasks[t])
    ensures Backed(before + [e], t, Step(s, e).tasks[t])
  {
    var es := before + [e];
    assert es[|before|] == e;
    if t < |s.tasks| {
      BackedLater(before, e, t, s.tasks[t]);
      if e.Reply? && e.t == t && Step(s, e).tasks[t].pc.Deciding? {
        assert StartCall(t, s.tasks[t].pc.hash) in es && Reply(t, e.doc, e.id, e.now) in es;
      }
    }
  }

  lemma {:induction false} OrderCaused(es: seq<Event>)
    requires Valid(es)
    ensures forall i :: 0 <= i < |Order(es)| ==> Caused(es, Order(es)[i])
  {
    if es == [] {
    } else {
      var before, e := es[..|es| - 1], es[|es| - 1];
      assert es == before + [e];
      OrderCaused(before);
      TasksBacked(before);
      forall i | 0 <= i < |Order(es)| ensures Caused(es, Order(es)[i]) {
        if i < |Order(before)| {
          CausedLater(before, e, Order(before)[i]);
        } else {
          EffectCaused(before, e);
        }
      }
    }
  }

  lemma EffectCaused(before: seq<Event>, e: Event)
    requires Valid(before) && Enabled(After(before), e) && Effect(After(before), e) != []
    requires forall t: nat :: t < |After(before).tasks| ==> Backed(before, t, After(before).tasks[t])
    ensures Caused(before + [e], Effect(After(before), e)[0])
  {
    var s, es := After(before), before + [e];
    assert e in es;
    if e.Write? {
      BackedLater(before, e, e.t, s.tasks[e.t]);
    }
  }

  lemma {:induction false} OrderOfPrefix(es: seq<Event>, n: nat)
    requires Valid(es) && n <= |es|
    ensures Valid(es[..n]) && Order(es[..n]) <= Order(es)
    decreases |es|
  {
    ValidPrefix(es, n);
    if n == |es| {
      assert es[..n] == es;
    } else {
      OrderOfPrefix(es[..|es| - 1], n);
      assert es[..|es| - 1][..n] == es[..n];
    }
  }

  lemma ResultsOccur(s: State, ops: seq<Op>, t: nat)
    requires Explains(s, ops) && HasResult(s, t)
    ensures Occurs(ops, t, s.tasks[t].pc.result)
  {
    assert Settled(s.tasks[t].pc) == Some(s.tasks[t].pc.result);
  }

  lemma PlaceOfFinished(es: seq<Event>, n: nat, a: nat) returns (k: nat)
    requires Valid(es) && n <= |es| && GaveResultBy(es, n, a)
    ensures Valid(es[..n]) && k < |Order(es[..n])| <= |Order(es)| && Order(es)[k].task == a
  {
    OrderOfPrefix(es, n);
    OrderExplains(es[..n]);
    var s := After(es[..n]);
    ResultsOccur(s, Order(es[..n]), a);
    k := PlaceOf(Order(es[..n]), a, s.tasks[a].pc.result);
    assert Order(es)[k] == Order(es[..n])[k];
  }

  lemma PlaceOf(ops: seq<Op>, t: nat, o: Outcome) returns (k: nat)
    requires Occurs(ops, t, o)
    ensures k < |ops| && ops[k].task == t
  {
    k :| 0 <= k < |ops| && ops[k].task == t && ops[k].outcome == o;
  }

  lemma EarlyPlacesAreCalled(es: seq<Event>, n: nat)
    requires Valid(es) && n <= |es|
    ensures Valid(es[..n]) && |Order(es[..n])| <= |Order(es)|
    ensures forall j :: 0 <= j < |Order(es[..n])| ==> Order(es)[j].task < |After(es[..n]).tasks|
  {
    OrderOfPrefix(es, n);
    OrderExplains(es[..n]);
    forall j | 0 <= j < |Order(es[..n])| ensures Order(es)[j].task < |After(es[..n]).tasks| {
      assert Order(es[..n])[j] == Order(es)[j];
    }
  }

  /** A result given before a call puts the two reviews in that order. */
  lemma {:induction false} OrderRespectsRealTime(es: seq<Event>, i: nat, j: nat)
    requires Valid(es) && i < |Order(es)| && j < |Order(es)|
    requires Precedes(es, Order(es)[i].task, Order(es)[j].task)
    ensures i < j
  {
    var n: nat :| n <= |es| && GaveResultBy(es, n, Order(es)[i].task) && !CalledBy(es, n, Order(es)[j].task);
    var k := PlaceOfFinished(es, n, Order(es)[i].task);
    EarlyPlacesAreCalled(es, n);
    OrderExplains(es);
    assert k == i;
  }

  /** Main result: every run, however the reviews interleave and fail, has a linearization. */
  lemma {:induction false} Linearizable(es: seq<Event>)
    requires Valid(es)
    ensures Linearization(es, Order(es))
  {
    OrderExplains(es);
    OrderCaused(es);
    forall t: nat | HasResult(After(es), t) ensures Occurs(Order(es), t, After(es).tasks[t].pc.result) {
      ResultsOccur(After(es), Order(es), t);
    }
    forall i, j | 0 <= i < |Order(es)| && 0 <= j < |Order(es)| && Precedes(es, Order(es)[i].task, Order(es)[j].task)
      ensures i < j
    {
      OrderRespectsRealTime(es, i, j);
    }
  }

  /** The cache passes through exactly the states of the sequential service, in the same order. */
  lemma CacheHistory(es: seq<Event>, n: nat)
    requires Valid(es) && n <= |es|
    ensures Valid(es[..n]) && |Order(es[..n])| <= |Order(es)|
    ensures After(es[..n]).cache == CacheAfter(Order(es)[..|Order(es[..n])|])
  {
    OrderOfPrefix(es, n);
    OrderExplains(es[..n]);
    assert Order(es)[..|Order(es[..n])|] == Order(es[..n]);
  }
}
