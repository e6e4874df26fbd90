/** What the review protocol guarantees over whole runs: final rejections, single flight, fairness, progress. */
module EthicsGuarantees {
  import opened Wrappers
  import opened EthicsProtocol

  // ---------- rejections are final

  lemma StepKeepsRejection(s: State, e: Event, key: Key)
    requires Inv(s) && Enabled(s, e) && IsRejected(s.cache, key)
    ensures key in Step(s, e).cache && Step(s, e).cache[key] == s.cache[key]
    ensures e.StartCall? ==> s.tasks[e.t].req.key != key
  {
    if !e.Invoke? {
      assert TaskInv(s, e.t);
    }
  }

  /** Once a subject's cached verdict is a rejection it never changes. */
  lemma {:induction false} RejectionIsFinal(es: seq<Event>, n: nat, key: Key)
    requires Valid(es) && n <= |es| && Valid(es[..n]) && IsRejected(After(es[..n]).cache, key)
    ensures key in After(es).cache && After(es).cache[key] == After(es[..n]).cache[key]
    decreases |es|
  {
    if n == |es| {
      assert es[..n] == es;
    } else {
      var before := es[..|es| - 1];
      assert before[..n] == es[..n];
      RejectionIsFinal(before, n, key);
      ReachableInv(before);
      StepKeepsRejection(After(before), es[|es| - 1], key);
    }
  }

  /** No LLM call about a rejected subject starts after the rejection is cached. */
  lemma {:induction false} NoCallAfterRejection(es: seq<Event>, n: nat, key: Key)
    requires Valid(es) && n < |es| && Valid(es[..n]) && IsRejected(After(es[..n]).cache, key)
    requires es[|es| - 1].StartCall?
    ensures After(es).tasks[es[|es| - 1].t].req.key != key
  {
    var before := es[..|es| - 1];
    assert before[..n] == es[..n];
    RejectionIsFinal(before, n, key);
    ReachableInv(before);
    StepKeepsRejection(After(before), es[|es| - 1], key);
  }

  /** The result a review has given, if it is a rejection. */
  predicate GaveRejection(s: State, t: nat, v: Verdict) {
    t < |s.tasks| && s.tasks[t].pc == Done(Returned(v)) && v.decision == Reject
  }

  /** All reviews of one subject that return a rejection return the identical verdict, which is the cached one. */
  lemma OneRejectionPerSubject(es: seq<Event>, t: nat, u: nat, v: Verdict, w: Verdict)
    requires Valid(es) && GaveRejection(After(es), t, v) && GaveRejection(After(es), u, w)
    requires After(es).tasks[t].req.key == After(es).tasks[u].req.key
    ensures v == w
    ensures var key := After(es).tasks[t].req.key; key in After(es).cache && After(es).cache[key] == v
  {
    ReachableInv(es);
    assert TaskInv(After(es), t) && TaskInv(After(es), u);
  }

  // ---------- single flight

  /** At most one LLM call is ever in flight, and the review that makes it holds the lock. */
  lemma SingleFlight(es: seq<Event>, t: nat, u: nat)
    requires Valid(es) && t < |After(es).tasks| && u < |After(es).tasks|
    requires After(es).tasks[t].pc.Calling? && After(es).tasks[u].pc.Calling?
    ensures t == u && After(es).holder == Some(t)
  {
    ReachableInv(es);
    assert TaskInv(After(es), t) && TaskInv(After(es), u);
  }

  function CallsBy(es: seq<Event>, t: nat): nat {
    if es == [] then 0
    else CallsBy(es[..|es| - 1], t) + (if es[|es| - 1].StartCall? && es[|es| - 1].t == t then 1 else 0)
  }

  predicate BeforeCall(pc: Pc) {
    pc.Entered? || pc.Waiting? || pc.Locked? || pc.Ready?
  }

  predicate HasNotCalled(s: State, t: nat) {
    t < |s.tasks| ==> BeforeCall(s.tasks[t].pc)
  }

  lemma StepMakesCall(s: State, e: Event, t: nat)
    requires Enabled(s, e)
    ensures HasNotCalled(Step(s, e), t) ==> HasNotCalled(s, t) && !(e.StartCall? && e.t == t)
    ensures e.StartCall? && e.t == t ==> HasNotCalled(s, t)
  {
  }

  /** A review makes at most one LLM call, and none before its second check has missed. */
  lemma {:induction false} AtMostOneCall(es: seq<Event>, t: nat)
    requires Valid(es)
    ensures CallsBy(es, t) <= 1
    ensures HasNotCalled(After(es), t) ==> CallsBy(es, t) == 0
  {
    if es == [] {
    } else {
      AtMostOneCall(es[..|es| - 1], t);
      StepMakesCall(After(es[..|es| - 1]), es[|es| - 1], t);
    }
  }

  /** Every exit path gives the lock back: a finished review does not hold it, and with none inside it is free. */
  lemma LockIsReleased(es: seq<Event>)
    requires Valid(es)
    ensures forall t: nat :: t < |After(es).tasks| && After(es).tasks[t].pc.Done? ==> After(es).holder != Some(t)
    ensures (forall t: nat :: t < |After(es).tasks| ==> After(es).tasks[t].pc.Done?) ==>
              After(es).holder == None && After(es).queue == []
  {
    ReachableInv(es);
    var s := After(es);
    forall t: nat | t < |s.tasks| && s.tasks[t].pc.Done? ensures s.holder != Some(t) {
      assert TaskInv(s, t);
    }
    assert s.holder.Some? ==> TaskInv(s, s.holder.value);
    assert s.queue != [] ==> TaskInv(s, s.queue[0]);
  }

  // ---------- first come, first served

  /** Both wait, and `a` is ahead of `b`. */
  ghost predicate Ahead(s: State, a: nat, b: nat) {
    exists i, j :: 0 <= i < j < |s.queue| && s.queue[i] == a && s.queue[j] == b
  }

  lemma {:induction false} WithoutKeepsOrder(q: seq<nat>, t: nat, i: nat, j: nat) returns (i': nat, j': nat)
    requires i < j < |q| && q[i] != t && q[j] != t
    ensures i' < j' < |Without(q, t)| && Without(q, t)[i'] == q[i] && Without(q, t)[j'] == q[j]
  {
    if q[0] == t {
      i', j' := WithoutKeepsOrder(q[1..], t, i - 1, j - 1);
    } else if i > 0 {
      i', j' := WithoutKeepsOrder(q[1..], t, i - 1, j - 1);
      i', j' := i' + 1, j' + 1;
    } else {
      WithoutSpec(q[1..], t);
      assert q[j] == q[1..][j - 1] && q[j] in q[1..];
      var k: nat :| k < |Without(q[1..], t)| && Without(q[1..], t)[k] == q[j];
      i', j' := 0, k + 1;
    }
  }

  lemma StepKeepsAhead(s: State, e: Event, a: nat, b: nat)
    requires Inv(s) && Enabled(s, e) && Ahead(s, a, b)
    requires a in Step(s, e).queue && b in Step(s, e).queue
    ensures Ahead(Step(s, e), a, b)
  {
    if e.FirstCheck? || e.Acquire? || e.CancelWaiting? {
      QueueStepKeepsAhead(s, e, a, b);
    } else {
      assert Step(s, e).queue == s.queue;
    }
  }

  lemma QueueStepKeepsAhead(s: State, e: Event, a: nat, b: nat)
    requires Inv(s) && Enabled(s, e) && Ahead(s, a, b) && (e.FirstCheck? || e.Acquire? || e.CancelWaiting?)
    requires a in Step(s, e).queue && b in Step(s, e).queue
    ensures Ahead(Step(s, e), a, b)
  {
    var q, q' := s.queue, Step(s, e).queue;
    var i, j :| 0 <= i < j < |q| && q[i] == a && q[j] == b;
    match e
    case FirstCheck(t) => assert q <= q' && q'[i] == a && q'[j] == b;
    case Acquire(t) =>
      assert NoRepeats(q) && q' == q[1..];
      assert i != 0;
      assert q'[i - 1] == a && q'[j - 1] == b;
    case CancelWaiting(t) =>
      WithoutSpec(q, t);
      var i', j' := WithoutKeepsOrder(q, t, i, j);
  }

  /** While both wait, a review that joined the queue first stays ahead. */
  lemma {:induction false} StaysAhead(es: seq<Event>, n: nat, a: nat, b: nat)
    requires Valid(es) && n <= |es| && Valid(es[..n])
    requires a in After(es[..n]).queue && b !in After(es[..n]).queue
    requires a in After(es).queue
    ensures b in After(es).queue ==> Ahead(After(es), a, b)
    decreases |es|
  {
    if n == |es| {
      assert es[..n] == es;
    } else {
      var before := es[..|es| - 1];
      assert before[..n] == es[..n];
      StillWaiting(es, n, a);
      StaysAhead(before, n, a, b);
      ReachableInv(before);
      StepStaysAhead(After(before), es[|es| - 1], a, b);
    }
  }

  lemma {:induction false} StillWaiting(es: seq<Event>, n: nat, a: nat)
    requires Valid(es) && n < |es| && Valid(es[..n])
    requires a in After(es[..n]).queue && a in After(es).queue
    ensures a in After(es[..|es| - 1]).queue
  {
    var before := es[..|es| - 1];
    assert before[..n] == es[..n];
    ReachableInv(before);
    OnceOutOfQueue(before, n, a);
    JoinedFromOutside(After(before), es[|es| - 1], a);
  }

  lemma StepStaysAhead(s: State, e: Event, a: nat, b: nat)
    requires Inv(s) && Enabled(s, e) && a in s.queue && a in Step(s, e).queue
    requires b in s.queue ==> Ahead(s, a, b)
    ensures b in Step(s, e).queue ==> Ahead(Step(s, e), a, b)
  {
    if b in Step(s, e).queue {
      if b in s.queue {
        StepKeepsAhead(s, e, a, b);
      } else {
        JoinsBehind(s, e, a, b);
      }
    }
  }

  /** Only a review that has just entered joins the queue. */
  lemma JoinedFromOutside(s: State, e: Event, a: nat)
    requires Inv(s) && Enabled(s, e) && a in Step(s, e).queue
    ensures a in s.queue || (a < |s.tasks| && s.tasks[a].pc.Entered?)
  {
    if e.CancelWaiting? {
      WithoutSpec(s.queue, e.t);
    }
  }

  lemma JoinsBehind(s: State, e: Event, a: nat, b: nat)
    requires Inv(s) && Enabled(s, e) && a in s.queue && b !in s.queue && b in Step(s, e).queue
    ensures Ahead(Step(s, e), a, b)
  {
    if e.CancelWaiting? {
      WithoutSpec(s.queue, e.t);
    }
    assert e.FirstCheck? && Step(s, e).queue == s.queue + [b];
    var i :| 0 <= i < |s.queue| && s.queue[i] == a;
    assert Step(s, e).queue[i] == a && Step(s, e).queue[|s.queue|] == b;
  }

  /** A review queues for the lock at most once. */
  lemma {:induction false} OnceOutOfQueue(es: seq<Event>, n: nat, a: nat)
    requires Valid(es) && n <= |es| && Valid(es[..n]) && a in After(es[..n]).queue
    ensures a < |After(es).tasks| && !After(es).tasks[a].pc.Entered?
    decreases |es|
  {
    if n == |es| {
      assert es[..n] == es;
      ReachableInv(es);
      QueuedIsWaiting(After(es), a);
    } else {
      var before := es[..|es| - 1];
      assert before[..n] == es[..n];
      OnceOutOfQueue(before, n, a);
      NeverEntersAgain(After(before), es[|es| - 1], a);
    }
  }

  lemma QueuedIsWaiting(s: State, a: nat)
    requires Inv(s) && a in s.queue
    ensures a < |s.tasks| && s.tasks[a].pc.Waiting?
  {
    var i :| 0 <= i < |s.queue| && s.queue[i] == a;
    assert TaskInv(s, a);
  }

  lemma NeverEntersAgain(s: State, e: Event, a: nat)
    requires Enabled(s, e) && a < |s.tasks| && !s.tasks[a].pc.Entered?
    ensures a < |Step(s, e).tasks| && !Step(s, e).tasks[a].pc.Entered?
  {
  }

  /**
   * No overtaking: if `a` queued for the lock before `b` did, then once `b` has the lock `a` no longer waits for it.
   */
  lemma {:induction false} FirstComeFirstServed(es: seq<Event>, n: nat, a: nat, b: nat)
    requires Valid(es) && n < |es| && es[|es| - 1] == Acquire(b) && Valid(es[..n])
    requires a in After(es[..n]).queue && b !in After(es[..n]).queue
    ensures a !in After(es).queue
  {
    var before := es[..|es| - 1];
    var s := After(before);
    assert before[..n] == es[..n];
    ReachableInv(before);
    if a in s.queue {
      StaysAhead(before, n, a, b);
    }
    assert After(es).queue == s.queue[1..];
  }

  // ---------- progress

  /** Upper bound on the steps a review still takes. */
  function Remaining(pc: Pc): nat {
    match pc
    case Entered => 8
    case Waiting => 7
    case Locked => 6
    case Ready => 5
    case Calling(_) => 4
    case Deciding(_) => 3
    case Leaving(_) => 2
    case Done(_) => 0
  }

  function Work(tasks: seq<Task>): nat {
    if tasks == [] then 0 else Remaining(tasks[0].pc) + Work(tasks[1..])
  }

  lemma {:induction false} WorkUpdate(tasks: seq<Task>, t: nat, task: Task)
    requires t < |tasks|
    ensures Work(tasks[t := task]) == Work(tasks) - Remaining(tasks[t].pc) + Remaining(task.pc)
  {
    if t > 0 {
      WorkUpdate(tasks[1..], t - 1, task);
      assert tasks[t := task][1..] == tasks[1..][t - 1 := task];
    } else {
      assert tasks[t := task][1..] == tasks[1..];
    }
  }

  /** Every step other than a new call brings the pending reviews closer to their results. */
  lemma StepDecreasesWork(s: State, e: Event)
    requires Enabled(s, e) && !e.Invoke?
    ensures Work(Step(s, e).tasks) < Work(s.tasks)
  {
    WorkUpdate(s.tasks, e.t, Step(s, e).tasks[e.t]);
  }

  predicate AllDone(s: State) {
    forall t: nat :: t < |s.tasks| ==> s.tasks[t].pc.Done?
  }

  /** The step the service itself takes next, given that a pending LLM call fails or is answered by `e`. */
  ghost predicate ServiceStep(e: Event) {
    !e.Invoke? && !e.CancelWaiting?
  }

  /** No deadlock: while some review is pending, some service step is possible. */
  lemma SomeStepPossible(s: State) returns (e: Event)
    requires Inv(s) && !AllDone(s)
    ensures ServiceStep(e) && Enabled(s, e)
  {
    var t: nat :| t < |s.tasks| && !s.tasks[t].pc.Done?;
    assert TaskInv(s, t);
    if s.holder.Some? {
      e := HolderStep(s, s.holder.value);
    } else if s.tasks[t].pc.Entered? {
      e := FirstCheck(t);
    } else {
      assert s.queue != [];
      assert TaskInv(s, s.queue[0]);
      e := Acquire(s.queue[0]);
    }
  }

  lemma HolderStep(s: State, t: nat) returns (e: Event)
    requires Inv(s) && s.holder == Some(t)
    ensures ServiceStep(e) && Enabled(s, e)
  {
    assert TaskInv(s, t);
    match s.tasks[t].pc
    case Locked => e := SecondCheck(t);
    case Ready => e := StartCall(t, "");
    case Calling(_) => e := CallFails(t);
    case Deciding(_) => e := Write(t);
    case Leaving(_) => e := Release(t);
  }

  /**
   * Progress: after any run, without new calls, at most Work steps can follow; and when no service step is left (every
   * LLM call having returned or failed) all reviews have their results and the lock is free.
   */
  lemma {:induction false} ReviewsFinish(es: seq<Event>, n: nat)
    requires Valid(es) && n <= |es| && Valid(es[..n])
    requires forall i :: n <= i < |es| ==> !es[i].Invoke?
    ensures |es| - n + Work(After(es).tasks) <= Work(After(es[..n]).tasks)
    ensures (forall e :: Enabled(After(es), e) ==> !ServiceStep(e)) ==> AllDone(After(es)) && After(es).holder == None
    decreases |es|
  {
    ReachableInv(es);
    if !AllDone(After(es)) {
      var e := SomeStepPossible(After(es));
    } else {
      LockIsReleased(es);
    }
    if n == |es| {
      assert es[..n] == es;
    } else {
      assert es[..|es| - 1][..n] == es[..n];
      ReviewsFinish(es[..|es| - 1], n);
      StepDecreasesWork(After(es[..|es| - 1]), es[|es| - 1]);
    }
  }
}
