/**
  What each event does to the validators: who enters and who leaves the powers that sign and propose,
  what a slash costs, which miss and which vote brings one about. Everybody else's record stays as it was.
 */
module StakeEffects {
  import opened Common
  import opened Consensus
  import Quorum
  import Proposer
  import StakeAccounting

  ghost predicate OthersUntouched(s: ConsensusState, s': ConsensusState, a: string) {
    && (forall b :: b != a ==> (b in s'.validators <==> b in s.validators))
    && (forall b :: b != a && b in s.validators ==> s'.validators[b] == s.validators[b])
  }

  /** Can this validator sign, and can it propose? */
  predicate TakesPart(s: ConsensusState, a: string) {
    a in Quorum.Powers(s.validators) && a in Proposer.ActivePowers(s.validators)
  }

  predicate SitsOut(s: ConsensusState, a: string) {
    a !in Quorum.Powers(s.validators) && a !in Proposer.ActivePowers(s.validators)
  }

  predicate HasPower(s: ConsensusState, a: string, power: nat) {
    TakesPart(s, a) && Quorum.Powers(s.validators)[a] == power && Proposer.ActivePowers(s.validators)[a] == power
  }

  // ---------------------------------------------------------------- joining, restaking, coming back

  /** Whoever is new and brings enough joins, and then signs and proposes with just that stake. */
  lemma JoiningTakesEffect(s: ConsensusState, a: string, stake: u64, pubkey: string)
    ensures var (s', r) := AddValidator(s, a, stake, pubkey);
            && (r.Ok? <==> stake >= s.minStake && a !in s.validators)
            && (r.Err? ==> s' == s)
            && (r.Ok? ==> HasPower(s', a, stake) && OthersUntouched(s, s', a))
            && (r.Ok? ==> s'.validators[a].stake == stake && s'.validators[a].pubkey == pubkey && !s'.validators[a].isJailed)
            && (r.Ok? ==> s'.validators[a].missedBlocks == s'.validators[a].totalSlashed == 0)
            && (r.Ok? && s.totalStake + stake <= U64_MAX ==> s'.totalStake == s.totalStake + stake)
  {
  }

  /** A new stake is the new power, of a validator that takes part; it brings nobody in and throws nobody out. */
  lemma RestakingTakesEffect(s: ConsensusState, a: string, stake: u64)
    ensures var (s', r) := UpdateStake(s, a, stake);
            && (r.Ok? <==> stake >= s.minStake && a in s.validators)
            && (r.Err? ==> s' == s)
            && (r.Ok? ==> s'.validators[a].stake == s'.validators[a].votingPower == stake && OthersUntouched(s, s', a))
            && (r.Ok? ==> s'.validators[a].(stake := s.validators[a].stake, votingPower := s.validators[a].votingPower) == s.validators[a])
            && (r.Ok? && TakesPart(s, a) ==> HasPower(s', a, stake))
            && (r.Ok? && SitsOut(s, a) ==> SitsOut(s', a))
  {
  }

  /** A jailed validator comes back once its term is over and its stake is still enough, with all that is left of it. */
  lemma ReleaseTakesEffect(s: ConsensusState, a: string, height: u64)
    requires WellKept(s)
    ensures var (s', r) := Unjail(s, a, height);
            && (r.Ok? <==> a in s.validators && s.validators[a].isJailed && height >= s.validators[a].jailUntil
                           && s.validators[a].stake >= s.minStake)
            && (r.Err? ==> s' == s)
            && (r.Ok? ==> HasPower(s', a, s.validators[a].stake) && OthersUntouched(s, s', a))
  {
  }

  // ---------------------------------------------------------------- leaving

  /** A removal takes a known validator out, keeps the rest of its record and touches nobody else. */
  lemma RemovalTakesEffect(s: ConsensusState, a: string)
    ensures var (s', r) := RemoveValidator(s, a);
            && (r.Ok? <==> a in s.validators)
            && (r.Err? ==> s' == s)
            && (r.Ok? ==> a in s'.validators && !s'.validators[a].isActive && SitsOut(s', a) && OthersUntouched(s, s', a))
            && (r.Ok? ==> s'.validators[a].(isActive := s.validators[a].isActive) == s.validators[a])
            && (r.Ok? && s.validators[a].stake <= s.totalStake ==> s'.totalStake == s.totalStake - s.validators[a].stake)
  {
  }

  /** Is this event an accepted release of the validator? */
  predicate Releases(s: ConsensusState, e: StakeEvent, a: string) {
    && e.Release? && e.a == a && a in s.validators && s.validators[a].isJailed
    && e.height >= s.validators[a].jailUntil && s.validators[a].stake >= s.minStake
  }

  /** Nothing but an accepted release makes an inactive validator active, and nothing forgets one. */
  lemma ActivatedExactly(s: ConsensusState, e: StakeEvent, a: string)
    requires a in s.validators && !s.validators[a].isActive
    ensures a in StakeStep(s, e).validators
    ensures StakeStep(s, e).validators[a].isActive <==> Releases(s, e, a)
  {
  }

  /** Only a removal or a slash makes an active validator inactive, and either always does. */
  lemma DeactivatedExactly(s: ConsensusState, e: StakeEvent, a: string)
    requires WellKept(s) && a in s.validators && s.validators[a].isActive
    ensures a in StakeStep(s, e).validators
    ensures !StakeStep(s, e).validators[a].isActive <==> e.a == a && (e.Leave? || StakeAccounting.Slashes(s, e))
  {
    StakeAccounting.StepTouchesOne(s, e);
    if StakeAccounting.Slashes(s, e) {
      StakeAccounting.SlashTouches(s, e);
    }
  }

  ghost predicate NeverReleased(s: ConsensusState, events: seq<StakeEvent>, a: string) {
    forall i :: 0 <= i < |events| ==> !Releases(StakeRun(s, events[..i]), events[i], a)
  }

  lemma {:induction false} InactiveSitsOut(s: ConsensusState, events: seq<StakeEvent>, a: string)
    requires a in s.validators && !s.validators[a].isActive && NeverReleased(s, events, a)
    ensures a in StakeRun(s, events).validators && !StakeRun(s, events).validators[a].isActive
  {
    if events != [] {
      var front := events[..|events| - 1];
      assert forall i :: 0 <= i < |front| ==> front[..i] == events[..i] && front[i] == events[i];
      InactiveSitsOut(s, front, a);
      ActivatedExactly(StakeRun(s, front), events[|front|], a);
    }
  }

  /** Once removed, a validator neither signs nor proposes in any later state, until it is released from jail. */
  lemma RemovedSitsOut(s: ConsensusState, a: string, events: seq<StakeEvent>)
    requires a in s.validators && NeverReleased(RemoveValidator(s, a).0, events, a)
    ensures SitsOut(StakeRun(RemoveValidator(s, a).0, events), a)
  {
    InactiveSitsOut(RemoveValidator(s, a).0, events, a);
  }

  // ---------------------------------------------------------------- slashing

  /** What each offense costs: a thousandth of the stake for downtime, a twentieth for signing twice. */
  lemma ChargeIsConcrete(stake: u64, offense: Offense)
    ensures offense.Downtime? ==> SlashAmount(stake, ChargePercent(offense)) == stake / 1000
    ensures offense.DoubleSign? && 50 * stake <= U64_MAX ==> SlashAmount(stake, ChargePercent(offense)) == stake / 20
  {
  }

  /** A slashed validator loses the amount, is jailed for its term, sits out, and is on record for it. */
  lemma SlashTakesEffect(s: ConsensusState, a: string, height: u64, charge: Charge)
    requires a in s.validators
    ensures var (s', r) := Slash(s, a, height, charge);
            && r == Ok(SlashAmount(s.validators[a].stake, ChargePercent(charge.offense)))
            && a in s'.validators && s'.validators[a].stake + r.value == s.validators[a].stake
            && s'.validators[a].votingPower == s'.validators[a].stake
            && s'.validators[a].isJailed && SitsOut(s', a) && OthersUntouched(s, s', a)
            && (height + 10_000 <= U64_MAX ==> s'.validators[a].jailUntil == height + 10_000)
            && s'.validators[a].missedBlocks == 0
            && s'.evidence == s.evidence + [Evidence(a, charge.offense, height, r.value, charge.hashes, charge.missedBlocks)]
            && s'.votes == s.votes && s'.pending == s.pending
  {
  }

  // ---------------------------------------------------------------- missed blocks

  function Missing(a: string, heights: seq<u64>): (events: seq<StakeEvent>)
    ensures |events| == |heights| && forall i :: 0 <= i < |heights| ==> events[i] == Miss(a, heights[i])
  {
    seq(|heights|, i requires 0 <= i < |heights| => Miss(a, heights[i]))
  }

  function WithMisses(s: ConsensusState, a: string, missed: u64): ConsensusState
    requires a in s.validators
  {
    WithValidator(s, a, s.validators[a].(missedBlocks := missed))
  }

  lemma MissCounts(s: ConsensusState, a: string, missed: u64, height: u64)
    requires a in s.validators && !s.validators[a].isJailed && missed < 99
    ensures RecordMissedBlock(WithMisses(s, a, missed), a, height) == (WithMisses(s, a, missed + 1), Ok(None))
  {
    assert WithMisses(WithMisses(s, a, missed), a, missed + 1).validators == WithMisses(s, a, missed + 1).validators;
  }

  lemma LastMiss(a: string, heights: seq<u64>)
    requires heights != []
    ensures Missing(a, heights)[..|heights| - 1] == Missing(a, heights[..|heights| - 1])
  {
  }

  /** Up to ninety-nine misses in a row only count. */
  lemma {:induction false} MissesCount(s: ConsensusState, a: string, heights: seq<u64>)
    requires a in s.validators && !s.validators[a].isJailed && s.validators[a].missedBlocks + |heights| < 100
    ensures StakeRun(s, Missing(a, heights)) == WithMisses(s, a, s.validators[a].missedBlocks + |heights|)
  {
    if heights == [] {
      assert s.validators[a := s.validators[a]] == s.validators;
    } else {
      var n := |heights| - 1;
      MissesCount(s, a, heights[..n]);
      MissCounts(s, a, s.validators[a].missedBlocks + n, heights[n]);
      LastMiss(a, heights);
    }
  }

  /** The hundredth miss in a row slashes for downtime, whatever heights they were missed at. */
  lemma HundredthMissSlashes(s: ConsensusState, a: string, heights: seq<u64>)
    requires a in s.validators && !s.validators[a].isJailed && s.validators[a].missedBlocks == 0 && |heights| == 100
    ensures var s' := StakeRun(s, Missing(a, heights));
            && a in s'.validators && s'.validators[a].isJailed && SitsOut(s', a)
            && s'.validators[a].stake == s.validators[a].stake - s.validators[a].stake / 1000
            && s'.evidence == s.evidence + [Evidence(a, Downtime, heights[99], s.validators[a].stake / 1000, None, Some(100))]
  {
    MissesCount(s, a, heights[..99]);
    var s1 := StakeRun(s, Missing(a, heights[..99]));
    LastMiss(a, heights);
    MissedThenSlashed(s1, a, heights[99]);
    SlashTakesEffect(s1, a, heights[99], Charge(Downtime, None, Some(MAX_MISSED_BLOCKS)));
    ChargeIsConcrete(s.validators[a].stake, Downtime);
  }

  /** A jailed or unknown validator misses nothing; the answer says which. */
  lemma MissIsIgnored(s: ConsensusState, a: string, height: u64)
    requires a !in s.validators || s.validators[a].isJailed
    ensures RecordMissedBlock(s, a, height) == (s, if a in s.validators then Ok(None) else Err(NotFound))
  {
  }

  /** A signed block clears the misses before it; a proposed one does not. Neither is remembered for a stranger. */
  lemma SigningClearsMisses(s: ConsensusState, a: string)
    ensures var (signed, proposed) := (RecordSignature(s, a), RecordProposal(s, a));
            && (signed.1.Ok? <==> a in s.validators) && (proposed.1.Ok? <==> a in s.validators)
            && (a !in s.validators ==> signed.0 == proposed.0 == s)
            && (a in s.validators && s.validators[a].blocksSigned < U64_MAX && s.validators[a].blocksProposed < U64_MAX ==>
                  var v := s.validators[a];
                  && a in signed.0.validators && a in proposed.0.validators
                  && signed.0.validators[a].missedBlocks == 0 && signed.0.validators[a].blocksSigned == v.blocksSigned + 1
                  && signed.0.validators[a].(missedBlocks := v.missedBlocks, blocksSigned := v.blocksSigned) == v
                  && proposed.0.validators[a].blocksProposed == v.blocksProposed + 1
                  && proposed.0.validators[a].(blocksProposed := v.blocksProposed) == v
                  && OthersUntouched(s, signed.0, a) && OthersUntouched(s, proposed.0, a))
  {
  }

  // ---------------------------------------------------------------- double votes

  predicate VotedFor(s: ConsensusState, height: u64, a: string, hash: Hash) {
    a in VotesAt(s, height) && VotesAt(s, height)[a] == hash
  }

  /** A vote once cast is kept as it was cast. */
  lemma VoteStays(s: ConsensusState, e: StakeEvent, height: u64, a: string, hash: Hash)
    requires VotedFor(s, height, a, hash)
    ensures VotedFor(StakeStep(s, e), height, a, hash)
  {
  }

  lemma {:induction false} VoteStaysThrough(s: ConsensusState, events: seq<StakeEvent>, height: u64, a: string, hash: Hash)
    requires VotedFor(s, height, a, hash)
    ensures VotedFor(StakeRun(s, events), height, a, hash)
  {
    if events != [] {
      var front, last := events[..|events| - 1], events[|events| - 1];
      VoteStaysThrough(s, front, height, a, hash);
      VoteStays(StakeRun(s, front), last, height, a, hash);
      assert StakeRun(s, events) == StakeStep(StakeRun(s, front), last);
    }
  }

  /** A first vote is remembered and harms nobody; other votes stay as they are. */
  lemma FirstVoteIsRemembered(s: ConsensusState, a: string, voteHeight: u64, hash: Hash, height: u64)
    requires a !in VotesAt(s, voteHeight)
    ensures var (s', r) := RecordBlockVote(s, a, voteHeight, hash, height);
            && r == Ok(None) && s'.validators == s.validators && s'.totalStake == s.totalStake && s'.evidence == s.evidence
            && VotesAt(s', voteHeight) == VotesAt(s, voteHeight)[a := hash]
            && forall h: u64 :: h != voteHeight ==> VotesAt(s', h) == VotesAt(s, h)
  {
  }

  /** What a second vote at a height does, given the first: nothing if it is the same, else a slash for signing twice. */
  lemma SecondVote(s: ConsensusState, a: string, voteHeight: u64, second: Hash, height: u64)
    requires a in VotesAt(s, voteHeight)
    ensures var (s', r) := RecordBlockVote(s, a, voteHeight, second, height);
            var first := VotesAt(s, voteHeight)[a];
            && (second == first ==> r == Ok(None) && s'.validators == s.validators && s'.evidence == s.evidence)
            && (second != first && a !in s.validators ==> r == Err(NotFound) && s'.validators == s.validators)
            && (second != first && a in s.validators ==>
                  && r == Ok(Some(SlashAmount(s.validators[a].stake, ChargePercent(DoubleSign))))
                  && a in s'.validators && s'.validators[a].stake + r.value.value == s.validators[a].stake && s'.validators[a].isJailed
                  && s'.evidence == s.evidence + [Evidence(a, DoubleSign, height, r.value.value, Some((first, second)), None)]
                  && OthersUntouched(s, s', a))
  {
  }

  /**
    Whatever happens between two votes of one validator at one height, the second adds to the evidence
    exactly when it is for another block and its author is known.
   */
  lemma DoubleVoteIsSlashed(s: ConsensusState, first: StakeEvent, events: seq<StakeEvent>, second: StakeEvent)
    requires first.Vote? && second.Vote? && first.a == second.a && first.voteHeight == second.voteHeight
    requires first.a !in VotesAt(s, first.voteHeight)
    ensures var s1 := StakeRun(StakeStep(s, first), events);
            StakeStep(s1, second).evidence != s1.evidence <==> first.hash != second.hash && first.a in s1.validators
  {
    FirstVoteIsRemembered(s, first.a, first.voteHeight, first.hash, first.height);
    VoteStaysThrough(StakeStep(s, first), events, first.voteHeight, first.a, first.hash);
    SecondVote(StakeRun(StakeStep(s, first), events), second.a, second.voteHeight, second.hash, second.height);
  }

  // ---------------------------------------------------------------- signatures

  /** Who has signed at a height, and with what power so far. */
  predicate SignedBy(s: ConsensusState, height: u64, hash: Hash, signers: set<string>, power: u64) {
    if height in s.pending
    then s.pending[height].blockHash == hash && s.pending[height].signatures.Keys == signers && s.pending[height].powerCollected == power
    else signers == {} && power == 0
  }

  /**
    What one signature does. From a validator that may sign, over the block already being signed, it counts once
    and is answered with whether the quorum is reached; anything else changes nothing.
   */
  lemma SignatureIsCounted(valid: Quorum.SignatureCheck, verify: bool, s: ConsensusState, height: u64, hash: Hash,
                           a: string, sig: Signature, signers: set<string>, power: u64)
    requires SignedBy(s, height, hash, signers, power)
    ensures var (s', r) := Quorum.CollectSignature(valid, verify, s, height, hash, a, sig);
            && (r.Ok? <==> a in Quorum.Powers(s.validators) && (verify ==> valid(s.validators[a].pubkey, hash, sig)))
            && (r.Err? ==> s' == s)
            && (r.Ok? ==> SignedBy(s', height, hash, signers + {a},
                                   if a in signers then power else WrapAdd(power, s.validators[a].votingPower)))
            && (r.Ok? ==> height in s'.pending
                          && (r.value <==> s'.pending[height].powerCollected >= Quorum.RequiredPower(Quorum.TotalPower(s.validators))))
  {
  }

  /** Over another block than the one being signed, it is answered with no. */
  lemma OtherBlockIsRefused(valid: Quorum.SignatureCheck, verify: bool, s: ConsensusState, height: u64, hash: Hash,
                            a: string, sig: Signature)
    requires height in s.pending && s.pending[height].blockHash != hash
    ensures var (s', r) := Quorum.CollectSignature(valid, verify, s, height, hash, a, sig); s' == s && r != Ok(true)
  {
  }

  /** What counts, signing or proposing, is the recorded voting power. */
  lemma PowerIsRecorded(s: ConsensusState, a: string)
    ensures TakesPart(s, a) <==> a in s.validators && s.validators[a].isActive && !s.validators[a].isJailed
    ensures TakesPart(s, a) ==> HasPower(s, a, s.validators[a].votingPower)
  {
  }

  // ---------------------------------------------------------------- forgetting old heights

  /** Cleaning up keeps the last heights, as many as it is told to, and never height zero. */
  lemma CleanupKeepsTheLast(s: ConsensusState, current: u64, keep: u64, h: u64)
    ensures var s' := Quorum.CleanupOldSignatures(s, current, keep);
            && (h in s'.pending <==> h in s.pending && h > 0 && h + keep > current)
            && (h in s'.votes <==> h in s.votes && h > 0 && h + keep > current)
            && (h in s'.pending ==> s'.pending[h] == s.pending[h])
            && (h in s'.votes ==> s'.votes[h] == s.votes[h])
            && s'.validators == s.validators && s'.totalStake == s.totalStake && s'.evidence == s.evidence
  {
  }
}
