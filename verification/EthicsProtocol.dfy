/**
 * The ethics review as a protocol of small steps: an unlocked cache check, the lock, a second check, one LLM call, the
 * cache write and the release, by any number of concurrent reviews.
 */
module EthicsProtocol {
  import opened Wrappers

  // ---------- requests, replies, verdicts

  datatype SubjectType = VerticalProposal | ToolArtifact

  datatype Key = Key(subjectType: SubjectType, subjectId: string)

  datatype Request = Request(id: string, key: Key, payload: string)

  datatype Decision = Approve | Reject | Escalate

  /** `id` and `decidedAt` are what uuid4() and the clock gave; the model used is always the same one. */
  datatype Verdict = Verdict(
    id: string, requestId: string, decision: Decision, rationale: string, rulesetHash: string, decidedAt: int)

  datatype Field = Text(s: string) | NotText(shown: string)

  /** What json.loads makes of the auditor's raw output. */
  datatype Document = NotJson | NotAnObject | Object(fields: map<string, Field>)

  const MIN_RATIONALE := 50
  const MAX_RATIONALE := 4000

  function DecisionOf(s: string): Option<Decision> {
    if s == "approve" then Some(Approve)
    else if s == "reject" then Some(Reject)
    else if s == "escalate" then Some(Escalate)
    else None
  }

  function Shown(f: Field): string {
    match f
    case Text(s) => s
    case NotText(shown) => shown
  }

  function Pad(s: string): (r: string)
    ensures |r| >= MIN_RATIONALE && s <= r && (|s| >= MIN_RATIONALE ==> r == s)
  {
    if |s| < MIN_RATIONALE then s + seq(MIN_RATIONALE - |s|, _ => ' ') else s
  }

  /** The decision and padded rationale, or None where the code raises ValueError. */
  function ParseVerdict(doc: Document): Option<(Decision, string)> {
    if !doc.Object? || doc.fields.Keys != {"decision", "rationale"} then None
    else match doc.fields["decision"]
      case NotText(_) => None
      case Text(s) =>
        match DecisionOf(s)
        case None => None
        case Some(d) => Some((d, Pad(Shown(doc.fields["rationale"]))))
  }

  /** Parsing followed by the schema's own limit on the rationale. */
  function MakeVerdict(req: Request, hash: string, doc: Document, id: string, now: int): Option<Verdict> {
    match ParseVerdict(doc)
    case None => None
    case Some((d, rationale)) =>
      if |rationale| > MAX_RATIONALE then None
      else Some(Verdict(id, req.id, d, rationale, hash, now))
  }

  /** A reply the code can use: an object with the two keys, a known decision, a rationale that is not too long. */
  predicate Usable(doc: Document) {
    && doc.Object? && doc.fields.Keys == {"decision", "rationale"}
    && doc.fields["decision"] in {Text("approve"), Text("reject"), Text("escalate")}
    && |Shown(doc.fields["rationale"])| <= 4000
  }

  /** The verdict says what the reply says: the decision it names, and its rationale padded with spaces to 50. */
  predicate Says(v: Verdict, doc: Document)
    requires Usable(doc)
  {
    var words := Shown(doc.fields["rationale"]);
    && (v.decision == Approve <==> doc.fields["decision"] == Text("approve"))
    && (v.decision == Reject <==> doc.fields["decision"] == Text("reject"))
    && (v.decision == Escalate <==> doc.fields["decision"] == Text("escalate"))
    && words <= v.rationale && |v.rationale| == (if |words| < 50 then 50 else |words|)
    && forall i :: |words| <= i < |v.rationale| ==> v.rationale[i] == ' '
  }

  /** A verdict is made exactly of a usable reply; it says what the reply says and answers its own request. */
  lemma VerdictAnswersRequest(req: Request, hash: string, doc: Document, id: string, now: int)
    ensures MakeVerdict(req, hash, doc, id, now).Some? <==> Usable(doc)
    ensures MakeVerdict(req, hash, doc, id, now).Some? ==>
              var v := MakeVerdict(req, hash, doc, id, now).value;
              && v.id == id && v.requestId == req.id && v.rulesetHash == hash && v.decidedAt == now
              && Says(v, doc)
  {
    if doc.Object? && doc.fields.Keys == {"decision", "rationale"} {
      assert "decision" in doc.fields && "rationale" in doc.fields;
      assert "approve"[0] != "reject"[0] && "escalate"[0] != "reject"[0] && "approve"[0] != "escalate"[0];
    }
  }

  // ---------- the state of the service

  datatype Outcome = Returned(verdict: Verdict) | Raised

  /** Where one review stands. */
  datatype Pc =
    | Entered                                // about to look at the cache without the lock
    | Waiting                                // queued on the lock
    | Locked                                 // holds the lock, about to look at the cache again
    | Ready                                  // holds the lock, about to read the prompt and call the LLM
    | Calling(hash: string)                  // holds the lock, LLM call in flight
    | Deciding(verdict: Verdict)             // holds the lock, about to write the cache
    | Leaving(outcome: Outcome)              // holds the lock, about to release it
    | Done(result: Outcome)

  datatype Task = Task(req: Request, pc: Pc)

  /** Reviews are numbered in the order of their calls. */
  datatype State = State(cache: map<Key, Verdict>, holder: Option<nat>, queue: seq<nat>, tasks: seq<Task>)

  const INITIAL := State(map[], None, [], [])

  datatype Event =
    | Invoke(req: Request)
    | FirstCheck(t: nat)
    | Acquire(t: nat)
    | SecondCheck(t: nat)
    | PromptFails(t: nat)
    | StartCall(t: nat, hash: string)
    | Reply(t: nat, doc: Document, id: string, now: int)
    | CallFails(t: nat)
    | Write(t: nat)
    | Release(t: nat)
    | CancelWaiting(t: nat)

  predicate IsRejected(cache: map<Key, Verdict>, key: Key) {
    key in cache && cache[key].decision == Reject
  }

  predicate At(s: State, t: nat, pc: Pc) {
    t < |s.tasks| && s.tasks[t].pc == pc
  }

  predicate Enabled(s: State, e: Event) {
    match e
    case Invoke(_) => true
    case FirstCheck(t) => At(s, t, Entered)
    case Acquire(t) => At(s, t, Waiting) && s.holder.None? && s.queue != [] && s.queue[0] == t
    case SecondCheck(t) => At(s, t, Locked)
    case PromptFails(t) => At(s, t, Ready)
    case StartCall(t, _) => At(s, t, Ready)
    case Reply(t, _, _, _) => t < |s.tasks| && s.tasks[t].pc.Calling?
    case CallFails(t) => t < |s.tasks| && s.tasks[t].pc.Calling?
    case Write(t) => t < |s.tasks| && s.tasks[t].pc.Deciding?
    case Release(t) => t < |s.tasks| && s.tasks[t].pc.Leaving?
    case CancelWaiting(t) => At(s, t, Waiting)
  }

  function Goto(s: State, t: nat, pc: Pc): State
    requires t < |s.tasks|
  {
    s.(tasks := s.tasks[t := s.tasks[t].(pc := pc)])
  }

  function Without(q: seq<nat>, t: nat): seq<nat> {
    if q == [] then [] else if q[0] == t then Without(q[1..], t) else [q[0]] + Without(q[1..], t)
  }

  function Step(s: State, e: Event): State
    requires Enabled(s, e)
  {
    match e
    case Invoke(req) => s.(tasks := s.tasks + [Task(req, Entered)])
    case FirstCheck(t) =>
      var key := s.tasks[t].req.key;
      if IsRejected(s.cache, key) then Goto(s, t, Done(Returned(s.cache[key])))
      else Goto(s, t, Waiting).(queue := s.queue + [t])
    case Acquire(t) => Goto(s, t, Locked).(holder := Some(t), queue := s.queue[1..])
    case SecondCheck(t) =>
      var key := s.tasks[t].req.key;
      if IsRejected(s.cache, key) then Goto(s, t, Leaving(Returned(s.cache[key])))
      else Goto(s, t, Ready)
    case PromptFails(t) => Goto(s, t, Leaving(Raised))
    case StartCall(t, hash) => Goto(s, t, Calling(hash))
    case Reply(t, doc, id, now) =>
      (match MakeVerdict(s.tasks[t].req, s.tasks[t].pc.hash, doc, id, now)
       case None => Goto(s, t, Leaving(Raised))
       case Some(v) => Goto(s, t, Deciding(v)))
    case CallFails(t) => Goto(s, t, Leaving(Raised))
    case Write(t) =>
      var v := s.tasks[t].pc.verdict;
      Goto(s, t, Leaving(Returned(v))).(cache := s.cache[s.tasks[t].req.key := v])
    case Release(t) => Goto(s, t, Done(s.tasks[t].pc.outcome)).(holder := None)
    case CancelWaiting(t) => Goto(s, t, Done(Raised)).(queue := Without(s.queue, t))
  }

  // ---------- runs

  predicate Valid(es: seq<Event>)
    decreases |es|, 0
  {
    es == [] || (Valid(es[..|es| - 1]) && Enabled(After(es[..|es| - 1]), es[|es| - 1]))
  }

  /** The state after a valid run from the initial state. */
  function After(es: seq<Event>): State
    requires Valid(es)
    decreases |es|, 1
  {
    if es == [] then INITIAL else Step(After(es[..|es| - 1]), es[|es| - 1])
  }

  lemma {:induction false} ValidPrefix(es: seq<Event>, n: nat)
    requires Valid(es) && n <= |es|
    ensures Valid(es[..n])
    decreases |es| - n
  {
    if n < |es| {
      ValidPrefix(es, n + 1);
      assert es[..n + 1][..n] == es[..n];
    } else {
      assert es[..n] == es;
    }
  }

  // ---------- the invariant

  predicate HoldsLock(pc: Pc) {
    pc.Locked? || pc.Ready? || pc.Calling? || pc.Deciding? || pc.Leaving?
  }

  /** Between its second check and its write, a review relies on its subject not being rejected. */
  predicate ReliesOnMiss(pc: Pc) {
    pc.Ready? || pc.Calling? || pc.Deciding?
  }

  /** A finished or finishing review that hands out a rejection hands out the cached one. */
  predicate RejectionIsCached(cache: map<Key, Verdict>, key: Key, o: Outcome) {
    o.Returned? && o.verdict.decision == Reject ==> key in cache && cache[key] == o.verdict
  }

  ghost predicate TaskInv(s: State, t: nat)
    requires t < |s.tasks|
  {
    var task := s.tasks[t];
    && (HoldsLock(task.pc) <==> s.holder == Some(t))
    && (task.pc.Waiting? <==> t in s.queue)
    && (ReliesOnMiss(task.pc) ==> !IsRejected(s.cache, task.req.key))
    && (task.pc.Leaving? ==> RejectionIsCached(s.cache, task.req.key, task.pc.outcome))
    && (task.pc.Done? ==> RejectionIsCached(s.cache, task.req.key, task.pc.result))
  }

  predicate NoRepeats(q: seq<nat>) {
    forall i, j :: 0 <= i < j < |q| ==> q[i] != q[j]
  }

  ghost predicate Inv(s: State) {
    && (s.holder.Some? ==> s.holder.value < |s.tasks|)
    && (forall i :: 0 <= i < |s.queue| ==> s.queue[i] < |s.tasks|)
    && NoRepeats(s.queue)
    && (forall t: nat :: t < |s.tasks| ==> TaskInv(s, t))
  }

  lemma {:induction false} WithoutSpec(q: seq<nat>, t: nat)
    ensures forall x :: x in Without(q, t) <==> x in q && x != t
    ensures NoRepeats(q) ==> NoRepeats(Without(q, t))
    ensures |Without(q, t)| <= |q|
  {
    if q == [] {
    } else {
      WithoutSpec(q[1..], t);
      assert q == [q[0]] + q[1..];
      if NoRepeats(q) {
        assert q[0] !in q[1..];
      }
    }
  }

  /** What a step of review `u` may change about the others: nothing they rely on. */
  ghost predicate OthersUndisturbed(s: State, s': State, u: nat) {
    && |s'.tasks| >= |s.tasks|
    && (forall t: nat :: t < |s.tasks| && t != u ==>
          && s'.tasks[t] == s.tasks[t]
          && (t in s'.queue <==> t in s.queue)
          && (s'.holder == Some(t) <==> s.holder == Some(t)))
    && (s'.cache == s.cache
        || (s.holder == Some(u) && u < |s.tasks| && !IsRejected(s.cache, s.tasks[u].req.key)
            && s.tasks[u].req.key in s'.cache
            && s'.cache == s.cache[s.tasks[u].req.key := s'.cache[s.tasks[u].req.key]]))
  }

  lemma OthersKeepInv(s: State, s': State, u: nat, t: nat)
    requires Inv(s) && OthersUndisturbed(s, s', u) && t < |s.tasks| && t != u
    ensures TaskInv(s', t)
  {
    assert TaskInv(s, t);
  }

  lemma StepUndisturbing(s: State, e: Event)
    requires Inv(s) && Enabled(s, e) && !e.Invoke?
    ensures OthersUndisturbed(s, Step(s, e), e.t)
  {
    assert TaskInv(s, e.t);
    match e
    case Acquire(u) => assert s.queue == [u] + s.queue[1..];
    case CancelWaiting(u) => WithoutSpec(s.queue, u);
    case Release(u) =>
    case Write(u) => assert Step(s, e).cache == s.cache[s.tasks[u].req.key := s.tasks[u].pc.verdict];
    case _ =>
  }

  lemma StepKeepsOwnInv(s: State, e: Event)
    requires Inv(s) && Enabled(s, e) && !e.Invoke?
    ensures TaskInv(Step(s, e), e.t)
  {
    assert TaskInv(s, e.t);
    match e
    case Acquire(u) =>
      assert s.queue == [u] + s.queue[1..];
      assert u !in s.queue[1..];
    case CancelWaiting(u) => WithoutSpec(s.queue, u);
    case _ =>
  }

  lemma StepKeepsQueue(s: State, e: Event)
    requires Inv(s) && Enabled(s, e)
    ensures NoRepeats(Step(s, e).queue)
    ensures forall i :: 0 <= i < |Step(s, e).queue| ==> Step(s, e).queue[i] < |s.tasks|
    ensures Step(s, e).holder.Some? ==> Step(s, e).holder.value < |s.tasks|
  {
    match e
    case FirstCheck(u) => assert TaskInv(s, u);
    case CancelWaiting(u) =>
      WithoutSpec(s.queue, u);
      forall i | 0 <= i < |Without(s.queue, u)| ensures Without(s.queue, u)[i] < |s.tasks| {
        assert Without(s.queue, u)[i] in s.queue;
      }
    case _ =>
  }

  lemma StepKeepsInv(s: State, e: Event)
    requires Inv(s) && Enabled(s, e)
    ensures Inv(Step(s, e))
  {
    var s' := Step(s, e);
    StepKeepsQueue(s, e);
    forall t: nat | t < |s'.tasks| ensures TaskInv(s', t) {
      if e.Invoke? {
        assert t < |s.tasks| ==> TaskInv(s, t);
      } else {
        StepUndisturbing(s, e);
        if t == e.t {
          StepKeepsOwnInv(s, e);
        } else {
          OthersKeepInv(s, s', e.t, t);
        }
      }
    }
  }

  /** The invariant holds in every reachable state. */
  lemma {:induction false} ReachableInv(es: seq<Event>)
    requires Valid(es)
    ensures Inv(After(es))
  {
    if es == [] {
    } else {
      ReachableInv(es[..|es| - 1]);
      StepKeepsInv(After(es[..|es| - 1]), es[|es| - 1]);
    }
  }
}
