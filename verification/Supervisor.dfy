/** The registry of child agents: spend and revenue, the kill and pause policy, and the kill switch. */
module Supervisor {
  import opened Wrappers

  type ChildId = string

  datatype Status = Starting | Live | Paused | Killed | Archived

  datatype Reason =
    | MonthlyBudgetBreach | BurnWithoutRevenue | NoRevenueByDeadline | BelowDay30Target
    | Operator | KillSwitch

  /** Money in micro-dollars, times in seconds. */
  datatype ChildRun = ChildRun(
    spawnedAt: int, status: Status, monthlyBudget: int, spentMtd: int, revenueMtd: int,
    lastHeartbeat: int, lastError: Option<Reason>)

  datatype KillCriteria = KillCriteria(maxDaysToFirstDollar: int, minRevenueByDay30: int, maxBurnBeforeFirstDollar: int)

  datatype Entry = Entry(run: ChildRun, kill: KillCriteria, cumulativeSpend: int)

  datatype Decision = Keep | KillChild(why: Reason) | PauseChild(why: Reason)

  const SECONDS_PER_DAY := 86_400

  /** Whole days since the spawn; a clock before it counts as day zero. */
  function Day(spawnedAt: int, now: int): (d: nat) {
    var days := (now - spawnedAt) / SECONDS_PER_DAY;
    if days < 0 then 0 else days
  }

  /** The policy, rule by rule in the order the code applies them. */
  function Evaluate(e: Entry, now: int): Decision {
    var day, burnt := Day(e.run.spawnedAt, now), e.cumulativeSpend >= e.kill.maxBurnBeforeFirstDollar;
    if e.run.spentMtd >= e.run.monthlyBudget then PauseChild(MonthlyBudgetBreach)
    else if burnt && e.run.revenueMtd == 0 then KillChild(BurnWithoutRevenue)
    else if day >= e.kill.maxDaysToFirstDollar && e.run.revenueMtd == 0 then KillChild(NoRevenueByDeadline)
    else if day >= 30 && e.run.revenueMtd < e.kill.minRevenueByDay30 then KillChild(BelowDay30Target)
    else Keep
  }

  /** No revenue yet, although the burn allowance or the days allowed for a first dollar are used up. */
  predicate FirstDollarOverdue(e: Entry, now: int) {
    && e.run.revenueMtd == 0
    && (e.cumulativeSpend >= e.kill.maxBurnBeforeFirstDollar
         || Day(e.run.spawnedAt, now) >= e.kill.maxDaysToFirstDollar)
  }

  predicate BelowDay30(e: Entry, now: int) {
    Day(e.run.spawnedAt, now) >= 30 && e.run.revenueMtd < e.kill.minRevenueByDay30
  }

  /**
   * What each decision means: a pause, that the month's budget is spent; a kill, that it is not and the first dollar
   * is overdue or the day-30 target missed; keep, that none of this holds. The reason for a kill names the first
   * cause.
   */
  predicate Justified(e: Entry, now: int, d: Decision) {
    var spentUp := e.run.spentMtd >= e.run.monthlyBudget;
    var overdue, below := FirstDollarOverdue(e, now), BelowDay30(e, now);
    var burnt := e.cumulativeSpend >= e.kill.maxBurnBeforeFirstDollar;
    && (d.PauseChild? <==> spentUp) && (d.PauseChild? ==> d.why == MonthlyBudgetBreach)
    && (d.KillChild? <==> !spentUp && (overdue || below))
    && (d.Keep? <==> !spentUp && !overdue && !below)
    && (d.KillChild? ==> (d.why == BelowDay30Target <==> !overdue))
    && (d.KillChild? && overdue ==> d.why == if burnt then BurnWithoutRevenue else NoRevenueByDeadline)
  }

  // ---------- what happens to one child over a run

  datatype Event =
    | Heartbeat(at: int)
    | Spend(amount: int)
    | Revenue(amount: int)

  function Happen(e: Entry, ev: Event): Entry {
    match ev
    case Heartbeat(at) => e.(run := e.run.(lastHeartbeat := at))
    case Spend(a) => e.(cumulativeSpend := e.cumulativeSpend + a, run := e.run.(spentMtd := e.run.spentMtd + a))
    case Revenue(a) => e.(run := e.run.(revenueMtd := e.run.revenueMtd + a))
  }

  function History(e: Entry, evs: seq<Event>): Entry {
    if evs == [] then e else Happen(History(e, evs[..|evs| - 1]), evs[|evs| - 1])
  }

  predicate NonNegative(ev: Event) {
    (ev.Spend? ==> ev.amount >= 0) && (ev.Revenue? ==> ev.amount >= 0)
  }

  predicate AllNonNegative(evs: seq<Event>) {
    forall i :: 0 <= i < |evs| ==> NonNegative(evs[i])
  }

  function Spent(evs: seq<Event>): int {
    if evs == [] then 0
    else Spent(evs[..|evs| - 1]) + (if evs[|evs| - 1].Spend? then evs[|evs| - 1].amount else 0)
  }

  function Earned(evs: seq<Event>): int {
    if evs == [] then 0
    else Earned(evs[..|evs| - 1]) + (if evs[|evs| - 1].Revenue? then evs[|evs| - 1].amount else 0)
  }

  function LastSeen(evs: seq<Event>, before: int): int {
    if evs == [] then before
    else if evs[|evs| - 1].Heartbeat? then evs[|evs| - 1].at
    else LastSeen(evs[..|evs| - 1], before)
  }

  /** A run adds its spends to both counters and its revenue to the revenue, and changes nothing else but contact. */
  lemma {:induction false} HistoryExactly(e: Entry, evs: seq<Event>)
    ensures History(e, evs).cumulativeSpend == e.cumulativeSpend + Spent(evs) && History(e, evs).kill == e.kill
    ensures History(e, evs).run
         == e.run.(spentMtd := e.run.spentMtd + Spent(evs), revenueMtd := e.run.revenueMtd + Earned(evs),
                   lastHeartbeat := LastSeen(evs, e.run.lastHeartbeat))
  {
    if evs == [] {
    } else {
      HistoryExactly(e, evs[..|evs| - 1]);
    }
  }

  /** The day is the number of whole days since the spawn, and zero on a clock before it. */
  lemma DayCounts(spawnedAt: int, now: int)
    ensures var d := Day(spawnedAt, now);
            && (now >= spawnedAt ==> d * 86_400 <= now - spawnedAt < (d + 1) * 86_400)
            && (now < spawnedAt ==> d == 0)
  {
  }

  /** What a run of events leaves alone, and in which direction it moves the rest. */
  lemma {:induction false} HistoryMoves(e: Entry, evs: seq<Event>)
    requires AllNonNegative(evs)
    ensures var h := History(e, evs);
            && h.kill == e.kill && h.run.spawnedAt == e.run.spawnedAt && h.run.monthlyBudget == e.run.monthlyBudget
            && h.run.status == e.run.status
            && h.run.spentMtd >= e.run.spentMtd && h.cumulativeSpend >= e.cumulativeSpend
            && h.run.revenueMtd >= e.run.revenueMtd
            && ((forall i :: 0 <= i < |evs| ==> !evs[i].Revenue?) ==> h.run.revenueMtd == e.run.revenueMtd)
  {
    if evs == [] {
    } else {
      HistoryMoves(e, evs[..|evs| - 1]);
    }
  }

  /** Whatever is spent or earned, in whatever order and sign, month spend and cumulative spend move together. */
  lemma {:induction false} SpendsMoveTogether(e: Entry, evs: seq<Event>)
    ensures History(e, evs).run.spentMtd - History(e, evs).cumulativeSpend == e.run.spentMtd - e.cumulativeSpend
  {
    if evs == [] {
    } else {
      SpendsMoveTogether(e, evs[..|evs| - 1]);
    }
  }

  lemma DayMonotone(spawnedAt: int, now: int, later: int)
    requires now <= later
    ensures Day(spawnedAt, now) <= Day(spawnedAt, later)
  {
  }

  /**
   * Without new revenue, with non-negative spends and the clock advancing, a decision against the child is never taken
   * back.
   */
  lemma {:induction false} DecisionsDoNotReturnToKeep(e: Entry, evs: seq<Event>, now: int, later: int)
    requires forall i :: 0 <= i < |evs| ==> NonNegative(evs[i]) && !evs[i].Revenue?
    requires now <= later && Evaluate(e, now) != Keep
    ensures Evaluate(History(e, evs), later) != Keep
  {
    HistoryMoves(e, evs);
    DayMonotone(e.run.spawnedAt, now, later);
  }

  /** A child with positive revenue at or above its day-30 minimum is never killed by policy again. */
  lemma EnoughRevenueIsSafe(e: Entry, evs: seq<Event>, now: int)
    requires AllNonNegative(evs)
    requires e.run.revenueMtd > 0 && e.run.revenueMtd >= e.kill.minRevenueByDay30
    ensures !Evaluate(History(e, evs), now).KillChild?
  {
    HistoryMoves(e, evs);
  }

  ghost predicate NeverKilled(e: Entry) {
    forall evs: seq<Event>, now: int :: AllNonNegative(evs) ==> !Evaluate(History(e, evs), now).KillChild?
  }

  /** Exactly the children that policy can never kill, at any later time and after any non-negative run of events. */
  lemma SafeFromKillExactly(e: Entry)
    requires e.run.revenueMtd >= 0 && e.kill.minRevenueByDay30 >= 0
    ensures NeverKilled(e) <==>
              e.run.spentMtd >= e.run.monthlyBudget
              || (e.run.revenueMtd > 0 && e.run.revenueMtd >= e.kill.minRevenueByDay30)
  {
    if e.run.spentMtd >= e.run.monthlyBudget || (e.run.revenueMtd > 0 && e.run.revenueMtd >= e.kill.minRevenueByDay30) {
      forall evs: seq<Event>, now: int | AllNonNegative(evs) ensures !Evaluate(History(e, evs), now).KillChild? {
        HistoryMoves(e, evs);
      }
    } else {
      var limit := if e.kill.maxDaysToFirstDollar > 30 then e.kill.maxDaysToFirstDollar else 30;
      var now := e.run.spawnedAt + limit * SECONDS_PER_DAY;
      assert (now - e.run.spawnedAt) / SECONDS_PER_DAY == limit;
      var none: seq<Event> := [];
      assert AllNonNegative(none) && History(e, none) == e;
      assert Evaluate(History(e, none), now).KillChild?;
    }
  }

  // ---------- the registry

  datatype Error = DuplicateChild | UnknownChild | DeadlineExceeded

  class ChildSupervisor {
    var children: map<ChildId, Entry>

    constructor ()
      ensures children == map[]
    {
      children := map[];
    }

    method Register(id: ChildId, run: ChildRun, kill: KillCriteria) returns (r: Result<(), Error>)
      modifies this
      ensures id in old(children) ==> r == Err(DuplicateChild) && children == old(children)
      ensures id !in old(children) ==> r == Ok(()) && children == old(children)[id := Entry(run, kill, 0)]
    {
      if id in children {
        return Err(DuplicateChild);
      }
      children := children[id := Entry(run, kill, 0)];
      r := Ok(());
    }

    /** heartbeat, record_spend and record_revenue: one event of one child; an unknown child changes nothing. */
    method Observe(id: ChildId, ev: Event) returns (r: Result<(), Error>)
      modifies this
      ensures id !in old(children) ==> r == Err(UnknownChild) && children == old(children)
      ensures id in old(children) ==> r == Ok(()) && children == old(children)[id := Happen(old(children)[id], ev)]
      ensures id in old(children) ==>
                var was, now := old(children)[id], children[id];
                match ev
                case Heartbeat(at) => now == was.(run := was.run.(lastHeartbeat := at))
                case Spend(amount) =>
                  now == was.(cumulativeSpend := was.cumulativeSpend + amount,
                              run := was.run.(spentMtd := was.run.spentMtd + amount))
                case Revenue(amount) => now == was.(run := was.run.(revenueMtd := was.run.revenueMtd + amount))
    {
      if id !in children {
        return Err(UnknownChild);
      }
      var entry := children[id];
      match ev {
        case Heartbeat(at) =>
          entry := entry.(run := entry.run.(lastHeartbeat := at));
        case Spend(amount) =>
          entry := entry.(cumulativeSpend := entry.cumulativeSpend + amount);
          entry := entry.(run := entry.run.(spentMtd := entry.run.spentMtd + amount));
        case Revenue(amount) =>
          entry := entry.(run := entry.run.(revenueMtd := entry.run.revenueMtd + amount));
      }
      children := children[id := entry];
      r := Ok(());
    }

    /** A known child is paused, killed or kept as the policy says, and nothing changes. */
    method Decide(id: ChildId, now: int) returns (r: Result<Decision, Error>)
      ensures r.Ok? <==> id in children
      ensures r.Err? ==> r.error == UnknownChild
      ensures r.Ok? ==> Justified(children[id], now, r.value) && r.value == Evaluate(children[id], now)
    {
      if id !in children {
        return Err(UnknownChild);
      }
      var entry := children[id];
      var run, kill := entry.run, entry.kill;
      var day := Day(run.spawnedAt, now);
      if run.spentMtd >= run.monthlyBudget {
        return Ok(PauseChild(MonthlyBudgetBreach));
      }
      if entry.cumulativeSpend >= kill.maxBurnBeforeFirstDollar && run.revenueMtd == 0 {
        return Ok(KillChild(BurnWithoutRevenue));
      }
      if day >= kill.maxDaysToFirstDollar && run.revenueMtd == 0 {
        return Ok(KillChild(NoRevenueByDeadline));
      }
      if day >= 30 && run.revenueMtd < kill.minRevenueByDay30 {
        return Ok(KillChild(BelowDay30Target));
      }
      r := Ok(Keep);
    }

    method SetStatus(id: ChildId, status: Status, reason: Reason) returns (r: Result<(), Error>)
      modifies this
      ensures id !in old(children) ==> r == Err(UnknownChild) && children == old(children)
      ensures id in old(children) ==>
                var was := old(children)[id];
                && r == Ok(())
                && children == old(children)[id := was.(run := was.run.(status := status, lastError := Some(reason)))]
    {
      if id !in children {
        return Err(UnknownChild);
      }
      children := children[id := WithStatus(children[id], status, reason)];
      r := Ok(());
    }

    method PauseIfLive(id: ChildId) returns (paused: bool)
      requires id in children
      modifies this
      ensures paused <==> old(children)[id].run.status == Live
      ensures children == old(children)[id := AfterPause(old(children)[id], true)]
    {
      paused := children[id].run.status == Live;
      if paused {
        var _ := SetStatus(id, Paused, Operator);
      }
    }

    /** Pause every live child and no other; the count is the number that were live. */
    method PauseAll() returns (n: nat)
      modifies this
      ensures children.Keys == old(children).Keys
      ensures forall id :: id in children ==>
                var was := old(children)[id];
                children[id] == if was.run.status != Live then was
                                else was.(run := was.run.(status := Paused, lastError := Some(Operator)))
      ensures n == |set id | id in old(children) && old(children)[id].run.status == Live|
    {
      ghost var before := children;
      var todo := children.Keys;
      assert LiveIds(before) - todo == {};
      n := 0;
      while todo != {}
        invariant todo <= before.Keys
        invariant n == |LiveIds(before) - todo|
        invariant children == PausedExcept(before, todo)
        decreases todo
      {
        var id :| id in todo;
        VisitOne(before, todo, id);
        var paused := PauseIfLive(id);
        if paused {
          n := n + 1;
        }
        todo := todo - {id};
      }
      assert LiveIds(before) - todo == LiveIds(before);
    }
  }

  /** The registry when pause_all has visited every child outside `todo`. */
  function PausedExcept(children: map<ChildId, Entry>, todo: set<ChildId>): map<ChildId, Entry> {
    map id | id in children :: AfterPause(children[id], id !in todo)
  }

  function LiveIds(children: map<ChildId, Entry>): set<ChildId> {
    set id | id in children && children[id].run.status == Live
  }

  lemma VisitOne(before: map<ChildId, Entry>, todo: set<ChildId>, id: ChildId)
    requires id in todo && todo <= before.Keys
    ensures PausedExcept(before, todo)[id] == before[id]
    ensures PausedExcept(before, todo - {id}) == PausedExcept(before, todo)[id := AfterPause(before[id], true)]
    ensures |LiveIds(before) - (todo - {id})| ==
              |LiveIds(before) - todo| + (if before[id].run.status == Live then 1 else 0)
  {
    var live := LiveIds(before);
    if id in live {
      assert live - (todo - {id}) == (live - todo) + {id};
    } else {
      assert live - (todo - {id}) == live - todo;
    }
  }

  /** What pause_all has done to a child once it has been visited. */
  function AfterPause(e: Entry, visited: bool): Entry {
    if visited && e.run.status == Live then WithStatus(e, Paused, Operator) else e
  }

  function WithStatus(e: Entry, status: Status, reason: Reason): Entry {
    e.(run := e.run.(status := status, lastError := Some(reason)))
  }
}
