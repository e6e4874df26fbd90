/** The expansion ladder: which rung the revenue allows, and when another child may be proposed. */
module ExpansionLadder {

  /** Revenue thresholds in micro-dollars. */
  datatype Rung = Rung(minRevenue: int, minChannels: int, maxChildren: int)

  const TOP := 5

  function Threshold(rung: nat): Rung
    requires 1 <= rung <= TOP
  {
    match rung
    case 1 => Rung(0, 0, 1)
    case 2 => Rung(100_000_000, 1, 2)
    case 3 => Rung(500_000_000, 2, 3)
    case 4 => Rung(2_000_000_000, 2, 5)
    case 5 => Rung(10_000_000_000, 2, 8)
  }

  predicate Satisfied(rung: nat, revenue: int, channels: int)
    requires 1 <= rung <= TOP
  {
    revenue >= Threshold(rung).minRevenue && channels >= Threshold(rung).minChannels
  }

  /** How many of the rungs up to `n` are satisfied. */
  function SatisfiedCount(n: nat, revenue: int, channels: int): (count: nat)
    requires n <= TOP
    ensures count <= n
  {
    if n == 0 then 0 else SatisfiedCount(n - 1, revenue, channels) + (if Satisfied(n, revenue, channels) then 1 else 0)
  }

  function RungFor(revenue: int, channels: int): (r: nat)
    ensures 1 <= r <= TOP
  {
    if SatisfiedCount(TOP, revenue, channels) == 0 then 1 else SatisfiedCount(TOP, revenue, channels)
  }

  /** A rung is satisfied only if every lower one is, so the satisfied rungs are the first ones. */
  lemma {:induction false} LowerRungsSatisfied(n: nat, revenue: int, channels: int)
    requires 1 <= n <= TOP
    ensures Satisfied(n, revenue, channels) ==> SatisfiedCount(n, revenue, channels) == n
  {
    if n <= 1 {
    } else {
      LowerRungsSatisfied(n - 1, revenue, channels);
      assert Threshold(n - 1).minRevenue <= Threshold(n).minRevenue;
      assert Threshold(n - 1).minChannels <= Threshold(n).minChannels;
    }
  }

  /** The loop keeps the last satisfied rung, which is max(1, number of satisfied rungs). */
  method CurrentRung(revenue: int, channels: int) returns (best: nat)
    ensures best == RungFor(revenue, channels)
  {
    best := 1;
    for rung := 1 to TOP + 1
      invariant var count := SatisfiedCount(rung - 1, revenue, channels); best == if count == 0 then 1 else count
    {
      LowerRungsSatisfied(rung, revenue, channels);
      if revenue >= Threshold(rung).minRevenue && channels >= Threshold(rung).minChannels {
        best := rung;
      }
    }
  }

  /** A satisfied rung is counted together with all below it. */
  lemma {:induction false} SatisfiedCounts(k: nat, n: nat, revenue: int, channels: int)
    requires 1 <= k <= n <= TOP && Satisfied(k, revenue, channels)
    ensures SatisfiedCount(n, revenue, channels) >= k
  {
    if k == n {
      LowerRungsSatisfied(n, revenue, channels);
    } else {
      SatisfiedCounts(k, n - 1, revenue, channels);
    }
  }

  /** Conversely the count is itself a satisfied rung, unless it is zero. */
  lemma {:induction false} CountIsSatisfied(n: nat, revenue: int, channels: int)
    requires n <= TOP && SatisfiedCount(n, revenue, channels) > 0
    ensures Satisfied(SatisfiedCount(n, revenue, channels), revenue, channels)
  {
    if Satisfied(n, revenue, channels) {
      LowerRungsSatisfied(n, revenue, channels);
    } else {
      CountIsSatisfied(n - 1, revenue, channels);
    }
  }

  /** The rung is the highest satisfied one whenever any is. */
  lemma RungIsHighestSatisfied(revenue: int, channels: int)
    ensures var r := RungFor(revenue, channels);
            && (Satisfied(r, revenue, channels) || (r == 1 && !Satisfied(1, revenue, channels)))
            && forall k :: r < k <= TOP ==> !Satisfied(k, revenue, channels)
  {
    var r := RungFor(revenue, channels);
    forall k | r < k <= TOP ensures !Satisfied(k, revenue, channels) {
      if Satisfied(k, revenue, channels) {
        SatisfiedCounts(k, TOP, revenue, channels);
      }
    }
    if SatisfiedCount(TOP, revenue, channels) > 0 {
      CountIsSatisfied(TOP, revenue, channels);
    } else if Satisfied(1, revenue, channels) {
      SatisfiedCounts(1, TOP, revenue, channels);
    }
  }

  lemma {:induction false} CountMonotone(n: nat, revenue: int, channels: int, revenue': int, channels': int)
    requires n <= TOP && revenue <= revenue' && channels <= channels'
    ensures SatisfiedCount(n, revenue, channels) <= SatisfiedCount(n, revenue', channels')
  {
    if n == 0 {
    } else {
      CountMonotone(n - 1, revenue, channels, revenue', channels');
    }
  }

  /** More revenue and more channels never lower the rung. */
  lemma RungMonotone(revenue: int, channels: int, revenue': int, channels': int)
    requires revenue <= revenue' && channels <= channels'
    ensures RungFor(revenue, channels) <= RungFor(revenue', channels')
  {
    CountMonotone(TOP, revenue, channels, revenue', channels');
  }

  // ---------- the proposal gate

  datatype Reason = Allowed | ConcentrationHalt | MaxChildrenReached | Rung2RequiresRevenue

  function Propose(revenue: int, channels: int, children: int): Reason {
    if revenue >= 500_000_000 && channels < 2 then ConcentrationHalt
    else if children >= Threshold(RungFor(revenue, channels)).maxChildren then MaxChildrenReached
    else if children >= 1 && revenue < 100_000_000 then Rung2RequiresRevenue
    else Allowed
  }

  /** The separate $100 check never decides: whenever it would apply, the cap has already refused. */
  lemma HundredDollarCheckNeverDecides(revenue: int, channels: int, children: int)
    ensures Propose(revenue, channels, children) != Rung2RequiresRevenue
  {
    if revenue < 100_000_000 {
      assert SatisfiedCount(2, revenue, channels) <= 1;
      assert SatisfiedCount(3, revenue, channels) <= 1;
      assert SatisfiedCount(4, revenue, channels) <= 1;
      assert RungFor(revenue, channels) == 1;
    }
  }

  /** The gate as the code computes it: room under the rung's cap, and two channels from $500 on. */
  method CanProposeNew(revenue: int, channels: int, children: int) returns (why: Reason, rung: nat, maxChildren: int)
    ensures why == Propose(revenue, channels, children)
    ensures why == Allowed <==> children < maxChildren && (revenue >= 500_000_000 ==> channels >= 2)
    ensures why == ConcentrationHalt <==> revenue >= 500_000_000 && channels < 2
    ensures rung == RungFor(revenue, channels) && maxChildren == Threshold(rung).maxChildren
  {
    HundredDollarCheckNeverDecides(revenue, channels, children);
    rung := CurrentRung(revenue, channels);
    maxChildren := Threshold(rung).maxChildren;
    if revenue >= 500_000_000 && channels < 2 {
      why := ConcentrationHalt;
    } else if children >= maxChildren {
      why := MaxChildrenReached;
    } else if children >= 1 && revenue < 100_000_000 {
      why := Rung2RequiresRevenue;
    } else {
      why := Allowed;
    }
  }

  /** How many children revenue and channels allow, band by band. */
  function CapFor(revenue: int, channels: int): int {
    if revenue < 100_000_000 || channels < 1 then 1
    else if revenue < 500_000_000 || channels < 2 then 2
    else if revenue < 2_000_000_000 then 3
    else if revenue < 10_000_000_000 then 5
    else 8
  }

  lemma RungOfBand(revenue: int, channels: int)
    ensures Threshold(RungFor(revenue, channels)).maxChildren == CapFor(revenue, channels)
  {
    RungIsHighestSatisfied(revenue, channels);
    var r := RungFor(revenue, channels);
    assert r < 2 ==> !Satisfied(2, revenue, channels);
    assert r < 3 ==> !Satisfied(3, revenue, channels);
    assert r < 4 ==> !Satisfied(4, revenue, channels);
    assert r < 5 ==> !Satisfied(5, revenue, channels);
  }

  /** The gate's answer for every revenue, number of channels and number of children. */
  lemma GateByBand(revenue: int, channels: int, children: int)
    ensures Propose(revenue, channels, children) ==
              if revenue >= 500_000_000 && channels < 2 then ConcentrationHalt
              else if children >= CapFor(revenue, channels) then MaxChildrenReached
              else Allowed
  {
    RungOfBand(revenue, channels);
    HundredDollarCheckNeverDecides(revenue, channels, children);
  }

  // ---------- runs

  datatype State = State(revenue: int, channels: int, children: nat)

  datatype Event = Market(revenue: int, channels: int) | Spawn | ChildEnds

  /** A spawn takes place only when the gate allows it; revenue and channels may change in any way. */
  function Step(s: State, e: Event): State {
    match e
    case Market(revenue, channels) => s.(revenue := revenue, channels := channels)
    case Spawn => if Propose(s.revenue, s.channels, s.children) == Allowed then s.(children := s.children + 1) else s
    case ChildEnds => if s.children > 0 then s.(children := s.children - 1) else s
  }

  function Run(s: State, es: seq<Event>): State {
    if es == [] then s else Step(Run(s, es[..|es| - 1]), es[|es| - 1])
  }

  /** No run that starts with at most eight children ever has more, whatever the market does. */
  lemma {:induction false} NeverMoreThanEight(s: State, es: seq<Event>)
    requires s.children <= 8
    ensures Run(s, es).children <= 8
  {
    if es == [] {
    } else {
      NeverMoreThanEight(s, es[..|es| - 1]);
    }
  }

  /** Right after an allowed spawn the number of children is within the cap of the current rung. */
  lemma SpawnWithinRung(s: State)
    requires Propose(s.revenue, s.channels, s.children) == Allowed
    ensures Step(s, Spawn).children <= Threshold(RungFor(s.revenue, s.channels)).maxChildren <= 8
    ensures Step(s, Spawn).children >= 2 ==> s.revenue >= 100_000_000 && s.channels >= 1
    ensures s.revenue >= 500_000_000 ==> s.channels >= 2
  {
    RungIsHighestSatisfied(s.revenue, s.channels);
    HundredDollarCheckNeverDecides(s.revenue, s.channels, s.children);
  }
}
