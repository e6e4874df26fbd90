/** The service object: its cache, its lock, and `review` in the pieces that run between two suspension points. */
module EthicsService {
  import opened Wrappers
  import opened EthicsProtocol
  import Lin = EthicsLinearizability

  lemma ExtendRun(es: seq<Event>, e: Event)
    requires Valid(es) && Enabled(After(es), e)
    ensures Valid(es + [e]) && After(es + [e]) == Step(After(es), e)
  {
    assert (es + [e])[..|es + [e]| - 1] == es;
  }

  /** What reading the frozen prompt gives: its hash, or an error. */
  datatype Prompt = Hash(hash: string) | Unreadable

  /** What the LLM call gives: a document with the verdict's identifier and time, or an exception. */
  datatype Completion = Answer(doc: Document, id: string, now: int) | Failed

  class Service {
    var cache: map<Key, Verdict>
    var holder: Option<nat>
    var waiters: seq<nat>
    var reviews: seq<Task>
    /** The protocol steps taken so far. */
    ghost var trace: seq<Event>

    ghost predicate Consistent()
      reads this
    {
      Valid(trace) && After(trace) == State(cache, holder, waiters, reviews)
    }

    constructor ()
      ensures Consistent() && cache == map[] && reviews == [] && trace == []
    {
      cache, holder, waiters, reviews, trace := map[], None, [], [], [];
    }

    /** Whatever calls the object has served, its cache is that of a legal sequential order of atomic reviews. */
    lemma ServedSequentially()
      requires Consistent()
      ensures Lin.Linearization(trace, Lin.Order(trace)) && Lin.CacheAfter(Lin.Order(trace)) == cache
      ensures forall t: nat :: t < |reviews| && reviews[t].pc.Done? ==>
                Lin.Occurs(Lin.Order(trace), t, reviews[t].pc.result)
    {
      Lin.Linearizable(trace);
    }

    ghost method Record(e: Event)
      requires Valid(trace) && Enabled(After(trace), e)
      requires Step(After(trace), e) == State(cache, holder, waiters, reviews)
      modifies this`trace
      ensures Consistent() && trace == old(trace) + [e]
    {
      ExtendRun(trace, e);
      trace := trace + [e];
    }

    /** No review other than `t` is affected, and `t` answers the same request as before. */
    twostate predicate OnlyReview(t: nat)
      requires t < |old(reviews)|
      reads this
    {
      && |reviews| == |old(reviews)|
      && reviews[t].req == old(reviews)[t].req
      && forall u: nat :: u < |reviews| && u != t ==> reviews[u] == old(reviews)[u]
    }

    method MoveTo(t: nat, pc: Pc)
      requires t < |reviews|
      modifies this`reviews
      ensures reviews == old(reviews)[t := old(reviews)[t].(pc := pc)]
    {
      reviews := reviews[t := reviews[t].(pc := pc)];
    }

    method ReleaseLock(t: nat)
      requires Consistent() && t < |reviews| && reviews[t].pc.Leaving?
      modifies this
      ensures Consistent() && trace == old(trace) + [Release(t)]
      ensures reviews == old(reviews)[t := Task(old(reviews)[t].req, Done(old(reviews)[t].pc.outcome))]
      ensures holder == None && cache == old(cache) && waiters == old(waiters)
    {
      MoveTo(t, Done(reviews[t].pc.outcome));
      holder := None;
      Record(Release(t));
    }

    /** The second look at the cache, under the lock. */
    method LookAgain(t: nat)
      requires Consistent() && t < |reviews| && reviews[t].pc == Locked && holder == Some(t)
      modifies this
      ensures Consistent() && OnlyReview(t) && old(trace) <= trace
      ensures cache == old(cache) && waiters == old(waiters)
      ensures var key := reviews[t].req.key;
              if IsRejected(cache, key) then reviews[t].pc == Done(Returned(cache[key])) && holder == None
              else reviews[t].pc == Ready && holder == Some(t)
    {
      var key := reviews[t].req.key;
      if key in cache && cache[key].decision == Reject {
        MoveTo(t, Leaving(Returned(cache[key])));
        Record(SecondCheck(t));
        ReleaseLock(t);
      } else {
        MoveTo(t, Ready);
        Record(SecondCheck(t));
      }
    }

    /** The prompt is read and the LLM call begins, or the review raises. */
    method StartReview(t: nat, prompt: Prompt)
      requires Consistent() && t < |reviews| && reviews[t].pc == Ready && holder == Some(t)
      modifies this
      ensures Consistent() && OnlyReview(t) && old(trace) <= trace
      ensures cache == old(cache) && waiters == old(waiters)
      ensures prompt.Unreadable? ==> reviews[t].pc == Done(Raised) && holder == None
      ensures prompt.Hash? ==> reviews[t].pc == Calling(prompt.hash) && holder == Some(t)
    {
      match prompt
      case Unreadable =>
        MoveTo(t, Leaving(Raised));
        Record(PromptFails(t));
        ReleaseLock(t);
      case Hash(hash) =>
        MoveTo(t, Calling(hash));
        Record(StartCall(t, hash));
    }

    /** From the moment the lock is obtained to the start of the LLM call, or out again. */
    method UnderLock(t: nat, prompt: Prompt)
      requires Consistent() && t < |reviews| && reviews[t].pc == Locked && holder == Some(t)
      modifies this
      ensures Consistent() && OnlyReview(t) && old(trace) <= trace
      ensures cache == old(cache) && waiters == old(waiters)
      ensures var key := reviews[t].req.key;
              && (IsRejected(cache, key) ==> reviews[t].pc == Done(Returned(cache[key])) && holder == None)
              && (!IsRejected(cache, key) && prompt.Unreadable? ==> reviews[t].pc == Done(Raised) && holder == None)
              && (!IsRejected(cache, key) && prompt.Hash? ==>
                     reviews[t].pc == Calling(prompt.hash) && holder == Some(t))
    {
      LookAgain(t);
      if reviews[t].pc.Ready? {
        StartReview(t, prompt);
      }
    }

    method TakeLock(t: nat)
      requires Consistent() && waiters != [] && waiters[0] == t && holder == None
      requires t < |reviews| && reviews[t].pc == Waiting
      modifies this
      ensures Consistent() && old(trace) <= trace
      ensures reviews == old(reviews)[t := Task(old(reviews)[t].req, Locked)]
      ensures holder == Some(t) && waiters == old(waiters)[1..] && cache == old(cache)
    {
      MoveTo(t, Locked);
      holder := Some(t);
      waiters := waiters[1..];
      Record(Acquire(t));
    }

    /** A new call and its unlocked check: the cached rejection, or a place in the queue. */
    method Enter(req: Request) returns (t: nat)
      requires Consistent()
      modifies this
      ensures Consistent() && old(trace) <= trace
      ensures t == |old(reviews)| && cache == old(cache) && holder == old(holder)
      ensures IsRejected(cache, req.key) ==>
                reviews == old(reviews) + [Task(req, Done(Returned(cache[req.key])))] && waiters == old(waiters)
      ensures !IsRejected(cache, req.key) ==>
                reviews == old(reviews) + [Task(req, Waiting)] && waiters == old(waiters) + [t]
    {
      t := |reviews|;
      reviews := reviews + [Task(req, Entered)];
      Record(Invoke(req));
      if req.key in cache && cache[req.key].decision == Reject {
        MoveTo(t, Done(Returned(cache[req.key])));
      } else {
        MoveTo(t, Waiting);
        waiters := waiters + [t];
      }
      Record(FirstCheck(t));
    }

    /** A call of review, up to its first suspension or its result. */
    method Review(req: Request, prompt: Prompt) returns (t: nat)
      requires Consistent()
      modifies this
      ensures Consistent() && old(trace) <= trace
      ensures t == |old(reviews)| && |reviews| == t + 1 && reviews[t].req == req
      ensures forall u: nat :: u < t ==> reviews[u] == old(reviews)[u]
      ensures cache == old(cache)
      ensures (reviews[t].pc.Done? && reviews[t].pc.result.Returned?)
         <==> req.key in cache && cache[req.key].decision == Reject
      ensures var busy := old(holder).Some? || old(waiters) != [];
              && (IsRejected(cache, req.key) ==>
                    && reviews[t].pc == Done(Returned(cache[req.key]))
                    && holder == old(holder) && waiters == old(waiters))
              && (!IsRejected(cache, req.key) && busy ==>
                     reviews[t].pc == Waiting && holder == old(holder) && waiters == old(waiters) + [t])
              && (!IsRejected(cache, req.key) && !busy ==>
                    reviews[t].pc == (if prompt.Hash? then Calling(prompt.hash) else Done(Raised)) && waiters == []
                    && holder == (if prompt.Hash? then Some(t) else None))
    {
      var free := holder.None? && waiters == [];
      t := Enter(req);
      if reviews[t].pc.Waiting? && free {
        TakeLock(t);
        UnderLock(t, prompt);
      }
    }

    /** The free lock wakes the review that has waited longest. */
    method WakeFirst(prompt: Prompt) returns (t: nat)
      requires Consistent() && holder == None && waiters != []
      modifies this
      ensures Consistent() && t == old(waiters)[0] && t < |old(reviews)| && OnlyReview(t) && old(trace) <= trace
      ensures cache == old(cache) && waiters == old(waiters)[1..]
      ensures (reviews[t].pc.Done? && reviews[t].pc.result.Returned?)
         <==> reviews[t].req.key in cache && cache[reviews[t].req.key].decision == Reject
      ensures var key := reviews[t].req.key;
              && (IsRejected(cache, key) ==> reviews[t].pc == Done(Returned(cache[key])) && holder == None)
              && (!IsRejected(cache, key) && prompt.Unreadable? ==> reviews[t].pc == Done(Raised) && holder == None)
              && (!IsRejected(cache, key) && prompt.Hash? ==>
                     reviews[t].pc == Calling(prompt.hash) && holder == Some(t))
    {
      t := waiters[0];
      ReachableInv(trace);
      assert TaskInv(After(trace), t);
      TakeLock(t);
      UnderLock(t, prompt);
    }

    /** The verdict a reply leads to, if any. */
    function Made(task: Task, completion: Completion): Option<Verdict>
      requires task.pc.Calling?
    {
      match completion
      case Failed => None
      case Answer(doc, id, now) => MakeVerdict(task.req, task.pc.hash, doc, id, now)
    }

    /** The reply is parsed into a verdict about to be stored, or the review is about to raise. */
    method Conclude(t: nat, completion: Completion)
      requires Consistent() && t < |reviews| && reviews[t].pc.Calling?
      modifies this
      ensures Consistent() && old(trace) <= trace
      ensures cache == old(cache) && holder == old(holder) && waiters == old(waiters)
      ensures var made := Made(old(reviews)[t], completion);
              var pc := if made.Some? then Deciding(made.value) else Leaving(Raised);
              reviews == old(reviews)[t := old(reviews)[t].(pc := pc)]
    {
      match completion
      case Failed =>
        MoveTo(t, Leaving(Raised));
        Record(CallFails(t));
      case Answer(doc, id, now) =>
        match MakeVerdict(reviews[t].req, reviews[t].pc.hash, doc, id, now) {
          case None => MoveTo(t, Leaving(Raised));
          case Some(v) => MoveTo(t, Deciding(v));
        }
        Record(Reply(t, doc, id, now));
    }

    method Store(t: nat)
      requires Consistent() && t < |reviews| && reviews[t].pc.Deciding?
      modifies this
      ensures Consistent() && old(trace) <= trace
      ensures cache == old(cache)[old(reviews)[t].req.key := old(reviews)[t].pc.verdict]
      ensures holder == old(holder) && waiters == old(waiters)
      ensures reviews == old(reviews)[t := old(reviews)[t].(pc := Leaving(Returned(old(reviews)[t].pc.verdict)))]
    {
      var v := reviews[t].pc.verdict;
      cache := cache[reviews[t].req.key := v];
      MoveTo(t, Leaving(Returned(v)));
      Record(Write(t));
    }

    /** The LLM call of review `t` ends: parse, write the cache, release the lock, return or raise. */
    method Complete(t: nat, completion: Completion)
      requires Consistent() && t < |reviews| && reviews[t].pc.Calling?
      modifies this
      ensures Consistent() && OnlyReview(t) && old(trace) <= trace
      ensures holder == None && waiters == old(waiters)
      ensures var made := Made(old(reviews)[t], completion);
              && (made.Some? ==>
                    && reviews[t].pc == Done(Returned(made.value))
                    && cache == old(cache)[reviews[t].req.key := made.value])
              && (made.None? ==> reviews[t].pc == Done(Raised) && cache == old(cache))
      ensures !IsRejected(old(cache), reviews[t].req.key)
      ensures match completion
              case Failed => reviews[t].pc == Done(Raised)
              case Answer(doc, id, now) =>
                && (reviews[t].pc.result.Returned? <==> Usable(doc))
                && (Usable(doc) ==>
                      var v := reviews[t].pc.result.verdict;
                      && Says(v, doc) && v.id == id && v.decidedAt == now && v.requestId == reviews[t].req.id
                      && v.rulesetHash == old(reviews)[t].pc.hash && cache == old(cache)[reviews[t].req.key := v])
    {
      ReachableInv(trace);
      assert TaskInv(After(trace), t);
      if completion.Answer? {
        VerdictAnswersRequest(reviews[t].req, reviews[t].pc.hash, completion.doc, completion.id, completion.now);
      }
      Conclude(t, completion);
      if reviews[t].pc.Deciding? {
        Store(t);
      }
      ReleaseLock(t);
    }

    /** Cancellation while waiting leaves the queue; cancellation during the call is a failed call. */
    method Cancel(t: nat)
      requires Consistent() && t < |reviews| && (reviews[t].pc.Waiting? || reviews[t].pc.Calling?)
      modifies this
      ensures Consistent() && OnlyReview(t) && old(trace) <= trace
      ensures reviews[t].pc == Done(Raised) && cache == old(cache)
      ensures old(reviews)[t].pc.Waiting? ==> holder == old(holder) && waiters == Without(old(waiters), t)
      ensures old(reviews)[t].pc.Calling? ==> holder == None && waiters == old(waiters)
    {
      if reviews[t].pc.Waiting? {
        MoveTo(t, Done(Raised));
        waiters := Without(waiters, t);
        Record(CancelWaiting(t));
      } else {
        Complete(t, Failed);
      }
    }
  }
}
