/** When the running stake total is the sum of the active stakes, and how long a jailed validator stays out. */
module StakeAccounting {
  import opened Common
  import opened Sums
  import opened Consensus
  import Quorum
  import Proposer

  // ---------------------------------------------------------------- the total

  function ActiveStakes(vs: map<string, Validator>): map<string, nat> {
    map a | a in vs && vs[a].isActive :: vs[a].stake
  }

  ghost predicate Balanced(s: ConsensusState) {
    s.totalStake == MapSum(ActiveStakes(s.validators))
  }

  function Weight(v: Validator): nat {
    if v.isActive then v.stake else 0
  }

  function WeightOf(s: ConsensusState, a: string): nat {
    if a in s.validators then Weight(s.validators[a]) else 0
  }

  lemma ReplaceWeighs(s: ConsensusState, a: string, v: Validator)
    ensures MapSum(ActiveStakes(s.validators[a := v])) == MapSum(ActiveStakes(s.validators)) - WeightOf(s, a) + Weight(v)
    ensures WeightOf(s, a) <= MapSum(ActiveStakes(s.validators))
  {
    var before, after := ActiveStakes(s.validators), ActiveStakes(s.validators[a := v]);
    if v.isActive {
      assert after == before[a := v.stake];
      MapSumUpdate(before, a, v.stake);
    } else {
      assert after == before - {a};
      if a !in before {
        assert before - {a} == before;
      }
    }
    if a in before {
      MapSumRemove(before, a);
    }
  }

  /** Does this event reach the slashing code for a validator that exists? */
  predicate Slashes(s: ConsensusState, e: StakeEvent) {
    match e
    case Miss(a, _) => a in s.validators && !s.validators[a].isJailed && s.validators[a].missedBlocks + 1 >= MAX_MISSED_BLOCKS
    case Vote(a, voteHeight, hash, _) =>
      a in s.validators && a in VotesAt(s, voteHeight) && VotesAt(s, voteHeight)[a] != hash
    case _ => false
  }

  /**
    What a caller can look up beforehand: removal, restaking and slashing hit an active validator (or
    one with nothing at stake), and whatever raises the total keeps it within the word.
   */
  predicate KeepsBooks(s: ConsensusState, e: StakeEvent) {
    match e
    case Join(a, stake, _) => stake >= s.minStake && a !in s.validators ==> s.totalStake + stake <= U64_MAX
    case Leave(a) => a in s.validators ==> s.validators[a].isActive || s.validators[a].stake == 0
    case Restake(a, stake) =>
      stake >= s.minStake && a in s.validators ==>
        if s.validators[a].isActive then s.totalStake - s.validators[a].stake + stake <= U64_MAX
        else s.validators[a].stake == stake
    case Release(a, height) =>
      Unjail(s, a, height).1.Ok? ==> s.totalStake + s.validators[a].stake <= U64_MAX
    case Propose(_) => true
    case Sign(_) => true
    case _ => Slashes(s, e) ==> s.validators[e.a].isActive || s.validators[e.a].stake == 0 || s.totalStake == 0
  }

  /** A step changes the total and one validator; the sum of the active stakes follows that validator. */
  lemma StepTouchesOne(s: ConsensusState, e: StakeEvent)
    requires WellKept(s)
    ensures var s' := StakeStep(s, e);
            s'.validators == s.validators || (e.a in s'.validators && s'.validators == s.validators[e.a := s'.validators[e.a]])
  {
    if e.Miss? && Slashes(s, e) {
      MissedThenSlashed(s, e.a, e.height);
    }
  }

  lemma SlashTouches(s: ConsensusState, e: StakeEvent)
    requires WellKept(s) && Slashes(s, e)
    ensures var s' := StakeStep(s, e);
            && e.a in s'.validators && !s'.validators[e.a].isActive && s'.validators[e.a].isJailed
            && s'.totalStake == SaturatingSub(s.totalStake, s.validators[e.a].stake)
            && s'.validators[e.a].jailUntil == WrapAdd(e.height, JAIL_DURATION_BLOCKS)
            && |s'.evidence| == |s.evidence| + 1
            && s'.evidence[|s.evidence|].address == e.a && s'.evidence[|s.evidence|].height == e.height
            && s'.evidence[|s.evidence|].slashAmount == s.validators[e.a].stake - s'.validators[e.a].stake
  {
  }

  predicate TotalFollows(s: ConsensusState, e: StakeEvent) {
    StakeStep(s, e).totalStake == s.totalStake - WeightOf(s, e.a) + WeightOf(StakeStep(s, e), e.a)
  }

  lemma BalanceMoves(s: ConsensusState, s': ConsensusState, a: string)
    requires Balanced(s)
    requires s'.validators == s.validators || (a in s'.validators && s'.validators == s.validators[a := s'.validators[a]])
    ensures WeightOf(s, a) <= s.totalStake
    ensures Balanced(s') <==> s'.totalStake == s.totalStake - WeightOf(s, a) + WeightOf(s', a)
  {
    if a in s'.validators {
      ReplaceWeighs(s, a, s'.validators[a]);
      assert s.validators[a := s'.validators[a]] == s'.validators;
    }
  }

  /** The total follows the touched validator: the balance carries over when both move alike. */
  lemma BalanceFollows(s: ConsensusState, e: StakeEvent)
    requires WellKept(s) && Balanced(s)
    ensures WeightOf(s, e.a) <= s.totalStake
    ensures Balanced(StakeStep(s, e)) <==> TotalFollows(s, e)
  {
    StepTouchesOne(s, e);
    BalanceMoves(s, StakeStep(s, e), e.a);
  }

  lemma MissesMoveNothing(s: ConsensusState, e: StakeEvent)
    requires (e.Miss? || e.Vote?) && !Slashes(s, e)
    ensures StakeStep(s, e).totalStake == s.totalStake && WeightOf(StakeStep(s, e), e.a) == WeightOf(s, e.a)
  {
  }

  lemma SlashFollows(s: ConsensusState, e: StakeEvent)
    requires WellKept(s) && WeightOf(s, e.a) <= s.totalStake && (e.Miss? || e.Vote?)
    ensures TotalFollows(s, e) <==> KeepsBooks(s, e)
  {
    if Slashes(s, e) {
      SlashTouches(s, e);
    } else {
      MissesMoveNothing(s, e);
    }
  }

  lemma StakeFollows(s: ConsensusState, e: StakeEvent)
    requires WellKept(s) && WeightOf(s, e.a) <= s.totalStake && !e.Miss? && !e.Vote?
    ensures TotalFollows(s, e) <==> KeepsBooks(s, e)
  {
  }

  /** The total stays the sum of the active stakes exactly when the event keeps the books. */
  lemma StepBalances(s: ConsensusState, e: StakeEvent)
    requires WellKept(s) && Balanced(s)
    ensures Balanced(StakeStep(s, e)) <==> KeepsBooks(s, e)
  {
    BalanceFollows(s, e);
    if e.Miss? || e.Vote? {
      SlashFollows(s, e);
    } else {
      StakeFollows(s, e);
    }
  }

  ghost predicate RunKeepsBooks(s: ConsensusState, events: seq<StakeEvent>) {
    forall i :: 0 <= i < |events| ==> KeepsBooks(StakeRun(s, events[..i]), events[i])
  }

  /** Over a whole run from genesis. */
  lemma {:induction false} RunBalances(events: seq<StakeEvent>)
    requires RunKeepsBooks(Genesis, events)
    ensures Balanced(StakeRun(Genesis, events))
  {
    if events == [] {
      assert ActiveStakes(Genesis.validators) == map[];
    } else {
      var front := events[..|events| - 1];
      assert forall i :: 0 <= i < |front| ==> front[..i] == events[..i];
      RunBalances(front);
      RunIsWellKept(front);
      StepBalances(StakeRun(Genesis, front), events[|front|]);
    }
  }

  /** In such a run the quorum, the proposer and the stake total all weigh the same validators alike. */
  lemma OneWeighing(events: seq<StakeEvent>)
    requires RunKeepsBooks(Genesis, events)
    ensures var s := StakeRun(Genesis, events);
            && Quorum.TotalPower(s.validators) == s.totalStake
            && MapSum(Proposer.ActivePowers(s.validators)) == s.totalStake
            && Quorum.Powers(s.validators) == Proposer.ActivePowers(s.validators)
  {
    RunBalances(events);
    RunIsWellKept(events);
    var s := StakeRun(Genesis, events);
    assert Quorum.Powers(s.validators) == ActiveStakes(s.validators) == Proposer.ActivePowers(s.validators);
  }

  // ---------------------------------------------------------------- jail

  /** Locked in: jailed, inactive, and not to be released before the given height. */
  predicate LockedUntil(s: ConsensusState, a: string, height: u64) {
    a in s.validators && s.validators[a].isJailed && !s.validators[a].isActive && s.validators[a].jailUntil >= height
  }

  /** The height an event is applied at; events without one are not tied to the chain's height. */
  function HeightOf(e: StakeEvent): Option<u64> {
    match e
    case Miss(_, height) => Some(height)
    case Vote(_, _, _, height) => Some(height)
    case Release(_, height) => Some(height)
    case _ => None
  }

  predicate Within(e: StakeEvent, low: u64, high: u64) {
    HeightOf(e).Some? ==> low <= HeightOf(e).value < high
  }

  lemma LockHolds(s: ConsensusState, e: StakeEvent, a: string, low: u64, high: u64)
    requires WellKept(s) && LockedUntil(s, a, high)
    requires Within(e, low, high) && high <= low + JAIL_DURATION_BLOCKS && high + JAIL_DURATION_BLOCKS <= U64_MAX
    ensures LockedUntil(StakeStep(s, e), a, high)
  {
    StepTouchesOne(s, e);
    if Slashes(s, e) {
      SlashTouches(s, e);
    }
  }

  /**
    A validator slashed at some height takes no part for the whole jail term, whatever else happens in
    those blocks: restaking, removal, more slashes, attempts at release.
   */
  lemma {:induction false} SlashedSitsOut(s: ConsensusState, e: StakeEvent, events: seq<StakeEvent>)
    requires WellKept(s) && Slashes(s, e) && e.height + 2 * JAIL_DURATION_BLOCKS <= U64_MAX
    requires forall i :: 0 <= i < |events| ==> Within(events[i], e.height, e.height + JAIL_DURATION_BLOCKS)
    ensures WellKept(StakeRun(StakeStep(s, e), events))
    ensures LockedUntil(StakeRun(StakeStep(s, e), events), e.a, e.height + JAIL_DURATION_BLOCKS)
  {
    if events == [] {
      StepIsWellKept(s, e);
      SlashTouches(s, e);
    } else {
      SlashedSitsOut(s, e, events[..|events| - 1]);
      var s1 := StakeRun(StakeStep(s, e), events[..|events| - 1]);
      StepIsWellKept(s1, events[|events| - 1]);
      LockHolds(s1, events[|events| - 1], e.a, e.height, e.height + JAIL_DURATION_BLOCKS);
    }
  }

  /** The only way back: a release at or after the term's end, with enough stake left. */
  lemma OnlyReleaseActivates(s: ConsensusState, e: StakeEvent, a: string)
    requires WellKept(s) && a in s.validators && s.validators[a].isJailed
    ensures a in StakeStep(s, e).validators
    ensures !StakeStep(s, e).validators[a].isJailed || StakeStep(s, e).validators[a].isActive <==>
            e.Release? && e.a == a && e.height >= s.validators[a].jailUntil && s.validators[a].stake >= s.minStake
  {
    StepTouchesOne(s, e);
    if Slashes(s, e) {
      SlashTouches(s, e);
    }
  }

  /** A slash takes the stated share of the stake exactly when the multiplication fits the word. */
  lemma SlashIsExact(stake: u64, percent: nat)
    requires percent <= SLASH_DENOMINATOR
    ensures SlashAmount(stake, percent) == stake * percent / SLASH_DENOMINATOR <==> stake * percent <= U64_MAX
  {
  }

}
