/** kill_all: one task per targeted child, interleaved with heartbeats, spends, revenue and registrations. */
module KillSwitch {
  import opened Wrappers
  import opened Supervisor

  predicate Targeted(e: Entry) {
    e.run.status == Live || e.run.status == Paused || e.run.status == Starting
  }

  function Targets(children: map<ChildId, Entry>): set<ChildId> {
    set id | id in children && Targeted(children[id])
  }

  /** The registry, the kill tasks that have not run yet, and the shared counter. */
  datatype State = State(children: map<ChildId, Entry>, pending: set<ChildId>, killed: nat)

  datatype Action =
    | Kill(id: ChildId)
    | Observed(id: ChildId, ev: Event)
    | Registered(id: ChildId, run: ChildRun, criteria: KillCriteria)

  function Launch(children: map<ChildId, Entry>): State {
    State(children, Targets(children), 0)
  }

  predicate Enabled(s: State, a: Action) {
    match a
    case Kill(id) => id in s.pending && id in s.children
    case Observed(id, _) => id in s.children
    case Registered(id, _, _) => id !in s.children
  }

  function Step(s: State, a: Action): State
    requires Enabled(s, a)
  {
    match a
    case Kill(id) =>
      State(s.children[id := WithStatus(s.children[id], Killed, KillSwitch)], s.pending - {id}, s.killed + 1)
    case Observed(id, ev) => s.(children := s.children[id := Happen(s.children[id], ev)])
    case Registered(id, run, criteria) => s.(children := s.children[id := Entry(run, criteria, 0)])
  }

  predicate Valid(children: map<ChildId, Entry>, acts: seq<Action>)
    decreases |acts|, 0
  {
    acts == [] || (
      && Valid(children, acts[..|acts| - 1])
      && Enabled(After(children, acts[..|acts| - 1]), acts[|acts| - 1]))
  }

  function After(children: map<ChildId, Entry>, acts: seq<Action>): State
    requires Valid(children, acts)
    decreases |acts|, 1
  {
    if acts == [] then Launch(children) else Step(After(children, acts[..|acts| - 1]), acts[|acts| - 1])
  }

  /** The result of kill_all once its task group has ended: the deadline is only looked at afterwards. */
  function Outcome(s: State, elapsed: int, deadline: int): Result<(nat, int), Error>
    requires s.pending == {}
  {
    if elapsed > deadline then Err(DeadlineExceeded) else Ok((s.killed, elapsed))
  }

  /** What the run's other work did to one child. */
  function EventsOf(acts: seq<Action>, id: ChildId): seq<Event> {
    if acts == [] then []
    else
      var last := acts[|acts| - 1];
      EventsOf(acts[..|acts| - 1], id) + (if last.Observed? && last.id == id then [last.ev] else [])
  }

  lemma HistorySnoc(e: Entry, evs: seq<Event>, ev: Event)
    ensures History(e, evs + [ev]) == Happen(History(e, evs), ev)
  {
    assert (evs + [ev])[..|evs + [ev]| - 1] == evs;
  }

  /** The entry of a child known at launch, in terms of its own events and whether its kill task has run. */
  function Expected(children: map<ChildId, Entry>, acts: seq<Action>, id: ChildId, killed: bool): Entry
    requires id in children
  {
    var h := History(children[id], EventsOf(acts, id));
    if killed then WithStatus(h, Killed, KillSwitch) else h
  }

  ghost predicate Inv(children: map<ChildId, Entry>, acts: seq<Action>, s: State) {
    && s.pending <= Targets(children)
    && s.killed + |s.pending| == |Targets(children)|
    && children.Keys <= s.children.Keys
    && forall id :: id in children ==>
         s.children[id] == Expected(children, acts, id, id in Targets(children) && id !in s.pending)
  }

  lemma EventsSnoc(before: seq<Action>, a: Action, id: ChildId)
    ensures EventsOf(before + [a], id) == EventsOf(before, id) + (if a.Observed? && a.id == id then [a.ev] else [])
  {
    var acts := before + [a];
    assert acts[..|acts| - 1] == before && acts[|acts| - 1] == a;
  }

  /** Events do not look at the status, so it does not matter whether a child is killed before or after one. */
  lemma HappenKilled(e: Entry, ev: Event)
    ensures Happen(WithStatus(e, Killed, KillSwitch), ev) == WithStatus(Happen(e, ev), Killed, KillSwitch)
  {
  }

  lemma ExpectedObserved(children: map<ChildId, Entry>, before: seq<Action>, id: ChildId, ev: Event, killed: bool)
    requires id in children
    ensures Expected(children, before + [Observed(id, ev)], id, killed) ==
              Happen(Expected(children, before, id, killed), ev)
  {
    var h := History(children[id], EventsOf(before, id));
    EventsSnoc(before, Observed(id, ev), id);
    HistorySnoc(children[id], EventsOf(before, id), ev);
    HappenKilled(h, ev);
  }

  lemma ExpectedUnobserved(children: map<ChildId, Entry>, before: seq<Action>, a: Action, id: ChildId, killed: bool)
    requires id in children && !(a.Observed? && a.id == id)
    ensures Expected(children, before + [a], id, killed) == Expected(children, before, id, killed)
  {
    EventsSnoc(before, a, id);
    assert EventsOf(before, id) + [] == EventsOf(before, id);
  }

  lemma StepKeepsInv(children: map<ChildId, Entry>, before: seq<Action>, s: State, a: Action)
    requires Inv(children, before, s) && Enabled(s, a)
    ensures Inv(children, before + [a], Step(s, a))
  {
    var s' := Step(s, a);
    if a.Kill? {
      assert |s'.pending| == |s.pending| - 1;
    }
    forall id | id in children
      ensures s'.children[id] == Expected(children, before + [a], id, id in Targets(children) && id !in s'.pending)
    {
      var killed := id in Targets(children) && id !in s'.pending;
      if a.Observed? && a.id == id {
        ExpectedObserved(children, before, id, a.ev, killed);
      } else {
        ExpectedUnobserved(children, before, a, id, killed);
      }
    }
  }

  lemma {:induction false} RunInv(children: map<ChildId, Entry>, acts: seq<Action>)
    requires Valid(children, acts)
    ensures Inv(children, acts, After(children, acts))
  {
    if acts == [] {
    } else {
      var before, a := acts[..|acts| - 1], acts[|acts| - 1];
      RunInv(children, before);
      StepKeepsInv(children, before, After(children, before), a);
      assert acts == before + [a];
    }
  }

  lemma {:induction false} HistoryKeepsStatus(e: Entry, evs: seq<Event>)
    ensures History(e, evs).run.status == e.run.status
  {
    if evs == [] {
    } else {
      HistoryKeepsStatus(e, evs[..|evs| - 1]);
    }
  }

  /** The children that are starting, live or paused. */
  function Running(children: map<ChildId, Entry>): set<ChildId> {
    set id | id in children && children[id].run.status in {Starting, Live, Paused}
  }

  /**
   * Main result: when the task group ends, under any interleaving, every child that was starting, live or paused at
   * launch is killed by the switch, every killed or archived one keeps its status, each child is otherwise what its own
   * events made it, and the counter is the number that was starting, live or paused. None of this depends on the
   * deadline.
   */
  lemma KillAllKillsExactlyTheTargets(children: map<ChildId, Entry>, acts: seq<Action>, elapsed: int, deadline: int)
    requires Valid(children, acts) && After(children, acts).pending == {}
    ensures var s := After(children, acts);
            && (forall id :: id in children ==>
                  && id in s.children
                  && var history := History(children[id], EventsOf(acts, id));
                  && (children[id].run.status in {Starting, Live, Paused} ==>
                        s.children[id]
                          == history.(run := history.run.(status := Killed, lastError := Some(Reason.KillSwitch))))
                  && (children[id].run.status in {Killed, Archived} ==>
                        s.children[id] == history && s.children[id].run.status == children[id].run.status))
            && s.killed == |Running(children)|
            && (elapsed <= deadline ==> Outcome(s, elapsed, deadline) == Ok((|Running(children)|, elapsed)))
            && (elapsed > deadline ==> Outcome(s, elapsed, deadline) == Err(DeadlineExceeded))
  {
    RunInv(children, acts);
    RunningAreTargets(children);
    forall id | id in children {
      HistoryKeepsStatus(children[id], EventsOf(acts, id));
    }
  }

  lemma RunningAreTargets(children: map<ChildId, Entry>)
    ensures Running(children) == Targets(children)
  {
  }

  /** A child registered while the switch runs is not a target: it keeps the status it was registered with. */
  lemma {:induction false} NewChildrenSurvive(children: map<ChildId, Entry>, acts: seq<Action>, id: ChildId)
    returns (run: ChildRun, criteria: KillCriteria)
    requires Valid(children, acts) && id !in children && id in After(children, acts).children
    ensures Registered(id, run, criteria) in acts && After(children, acts).children[id].run.status == run.status
  {
    var before, a := acts[..|acts| - 1], acts[|acts| - 1];
    RunInv(children, before);
    assert acts == before + [a];
    if a.Registered? && a.id == id {
      run, criteria := a.run, a.criteria;
    } else {
      run, criteria := NewChildrenSurvive(children, before, id);
      OtherStepKeepsStatus(After(children, before), a, id);
      assert id !in After(children, before).pending;
    }
  }

  lemma OtherStepKeepsStatus(s: State, a: Action, id: ChildId)
    requires Enabled(s, a) && id in s.children && id !in s.pending && !(a.Registered? && a.id == id)
    ensures id in Step(s, a).children && Step(s, a).children[id].run.status == s.children[id].run.status
  {
  }

  function Kills(acts: seq<Action>): nat {
    if acts == [] then 0 else Kills(acts[..|acts| - 1]) + (if acts[|acts| - 1].Kill? then 1 else 0)
  }

  /** Progress: a pending kill can always run, and the switch ends after exactly as many kills as there were targets. */
  lemma {:induction false} KillAllEnds(children: map<ChildId, Entry>, acts: seq<Action>)
    requires Valid(children, acts)
    ensures Kills(acts) == After(children, acts).killed <= |Running(children)|
    ensures After(children, acts).pending == {} <==> Kills(acts) == |Running(children)|
    ensures forall id :: id in After(children, acts).pending ==> Enabled(After(children, acts), Kill(id))
  {
    RunInv(children, acts);
    RunningAreTargets(children);
    if acts == [] {
    } else {
      KillAllEnds(children, acts[..|acts| - 1]);
    }
  }
}
