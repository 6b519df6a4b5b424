/**
  What each governance call does to a proposal, when it goes through, how a proposal is paused, and how
  long its phases last. A settled proposal never changes again.
 */
module GovernanceEffects {
  import opened Common
  import opened Governance
  import opened GovernanceSafety

  /** Nothing but this proposal's record changed. */
  ghost predicate OnlyTouches(g: Gov, g': Gov, id: nat) {
    && g'.(proposals := g.proposals) == g
    && g'.proposals.Keys == g.proposals.Keys
    && forall i :: i in g.proposals && i != id ==> g'.proposals[i] == g.proposals[i]
  }

  // ---------------------------------------------------------------- pausing

  predicate PauseGoesThrough(g: Gov, id: nat, validator: string) {
    && id in g.proposals && (g.proposals[id].status.Voting? || g.proposals[id].status.Passed?)
    && validator !in g.proposals[id].pauseVotes
  }

  /** A new validator's pause vote is recorded, and pauses the proposal exactly when it reaches the threshold. */
  lemma PauseVoteTakesEffect(g: Gov, id: nat, validator: string, validators: nat)
    ensures var (g', r) := PauseVote(g, id, validator, validators);
            && (r.Done? <==> PauseGoesThrough(g, id, validator))
            && (r.Denied? ==> g' == g)
            && (r.Done? ==> OnlyTouches(g, g', id))
            && (r.Done? ==> var p, p' := g.proposals[id], g'.proposals[id];
                  && p'.pauseVotes == p.pauseVotes + [validator] && p'.(pauseVotes := p.pauseVotes, status := p.status) == p
                  && (r.value <==> |p.pauseVotes| + 1 >= PauseThreshold(validators))
                  && p'.status == if r.value then Paused else p.status)
  {
  }

  predicate Pauses(p: Proposal, e: GovEvent, id: nat) {
    && e.PauseEvent? && e.id == id && (p.status.Voting? || p.status.Passed?)
    && e.validator !in p.pauseVotes && |p.pauseVotes| + 1 >= PauseThreshold(e.validators)
  }

  lemma DecisionPauses(g: Gov, e: GovEvent)
    requires GovOk(g) && Decides(e) && e.id in g.proposals && !g.proposals[e.id].status.Paused?
    ensures e.id in GovStep(g, e).proposals
    ensures GovStep(g, e).proposals[e.id].status.Paused? <==> Pauses(g.proposals[e.id], e, e.id)
  {
    DecisionReplaces(g, e);
  }

  /** The one way to be paused: the vote of a validator that has not voted so, in voting or passed, reaching the threshold. */
  lemma EnteringPaused(g: Gov, e: GovEvent, id: nat)
    requires GovOk(g) && id in g.proposals && !g.proposals[id].status.Paused?
    ensures id in GovStep(g, e).proposals
    ensures GovStep(g, e).proposals[id].status.Paused? <==> Pauses(g.proposals[id], e, id)
  {
    if Decides(e) && e.id == id {
      DecisionPauses(g, e);
    } else if !e.AdvanceEvent? {
      OthersLeaveAlone(g, e, id);
    }
  }

  predicate Settled(p: Proposal) {
    p.status.Rejected? || p.status.Failed? || p.status.Executed? || p.status.Paused?
  }

  lemma NoDecisionUnsettles(g: Gov, e: GovEvent, id: nat)
    requires g.proposals.Keys == g.votes.Keys && Decides(e) && id in g.proposals && Settled(g.proposals[id])
    ensures var g' := GovStep(g, e); id in g'.proposals && g'.proposals[id] == g.proposals[id]
  {
    DecisionReplaces(g, e);
  }

  lemma SettledStepStays(g: Gov, e: GovEvent, id: nat)
    requires GovOk(g) && id in g.proposals && Settled(g.proposals[id])
    ensures var g' := GovStep(g, e); id in g'.proposals && g'.proposals[id] == g.proposals[id]
  {
    if Decides(e) {
      NoDecisionUnsettles(g, e, id);
    } else if !e.AdvanceEvent? {
      OthersLeaveAlone(g, e, id);
    }
  }

  /** Rejected, failed, executed or paused: such a proposal keeps its record whatever comes. */
  lemma {:induction false} SettledStays(g: Gov, events: seq<GovEvent>, id: nat)
    requires GovOk(g) && id in g.proposals && Settled(g.proposals[id])
    ensures var r := GovRun(g, events); GovOk(r) && id in r.proposals && r.proposals[id] == g.proposals[id]
  {
    if events != [] {
      var front, last := events[..|events| - 1], events[|events| - 1];
      SettledStays(g, front, id);
      SettledStepStays(GovRun(g, front), last, id);
      StepKeeps(GovRun(g, front), last);
    }
  }

  /** A paused proposal is never executed: not by a call, not by a signature, in no later state. */
  lemma PausedIsNeverExecuted(g: Gov, e: GovEvent, events: seq<GovEvent>, id: nat)
    requires GovOk(g) && id in g.proposals && Pauses(g.proposals[id], e, id)
    ensures var r := GovRun(GovStep(g, e), events); id in r.proposals && r.proposals[id].status.Paused?
  {
    EnteringPaused(g, e, id);
    StepKeeps(g, e);
    SettledStays(GovStep(g, e), events, id);
  }

  // ---------------------------------------------------------------- submitting

  /** The data part of an address is written in the thirty-two characters of BIP 173. */
  lemma AddressAlphabet(c: char)
    ensures AddressChar(c) <==> c in {'q', 'p', 'z', 'r', 'y', '9', 'x', '8', 'g', 'f', '2', 't', 'v', 'd', 'w', '0',
                                      's', '3', 'j', 'n', '5', '4', 'k', 'h', 'c', 'e', '6', 'm', 'u', 'a', '7', 'l'}
  {
  }

  /** An address is the prefix with 32 to 57 of these characters behind it, and nothing else is one. */
  lemma AddressShape(a: string, data: string)
    ensures ValidAddress("sultan1" + data) <==> 32 <= |data| <= 57 && forall i :: 0 <= i < |data| ==> AddressChar(data[i])
    ensures ValidAddress(a) ==> a == "sultan1" + a[7..]
  {
    var whole := "sultan1" + data;
    assert whole[..7] == "sultan1" && |whole| == 7 + |data|;
    if ValidAddress(whole) {
      forall i | 0 <= i < |data| ensures AddressChar(data[i]) {
        assert whole[7 + i] == data[i];
      }
    }
  }

  /** Has this address waited a day of blocks since its last proposal? */
  predicate Rested(g: Gov, proposer: string) {
    proposer in g.lastProposal ==> g.lastProposal[proposer] as int + 43_200 <= g.height
  }

  function InVoting(g: Gov, proposer: string): set<nat> {
    set id | id in g.proposals && g.proposals[id].proposer == proposer && g.proposals[id].status.Voting?
  }

  predicate Submittable(g: Gov, s: Submission) {
    && ValidAddress(s.proposer) && s.textsOk && s.deposit >= 1_000_000_000_000
    && (s.hasLink || s.kind.EmergencyAction?) && (s.kind.ParameterChange? ==> s.parametersOk)
    && Rested(g, s.proposer) && |InVoting(g, s.proposer)| < 3
  }

  /** Is the clock that far from the end of its word? */
  predicate RoomAhead(g: Gov, proposer: string) {
    g.height + 388_800 <= U64_MAX && (proposer in g.lastProposal ==> g.lastProposal[proposer] + 43_200 <= U64_MAX)
  }

  /**
    What is submitted in order gets the next number, a discussion of two days and then a voting period of
    seven, no votes, no tally and no signatures; what is not changes nothing.
   */
  lemma SubmissionIsAcceptedExactly(g: Gov, s: Submission)
    requires RoomAhead(g, s.proposer)
    ensures var (g', r) := Submit(g, s);
            && (r.Done? <==> Submittable(g, s))
            && (r.Denied? ==> g' == g)
            && (r.Done? ==> r.value == g.nextId && g'.nextId == g.nextId + 1 && g'.lastProposal == g.lastProposal[s.proposer := g.height])
            && (r.Done? ==> g'.proposals == g.proposals[r.value := g'.proposals[r.value]] && g'.votes == g.votes[r.value := []])
            && (r.Done? ==> IsFresh(g, s, g'.proposals[r.value]))
            && (r.Done? ==> g'.height == g.height && g'.bonded == g.bonded && g'.snapshots == g.snapshots)
  {
    assert InVoting(g, s.proposer) == ActiveOf(g, s.proposer);
  }

  predicate IsFresh(g: Gov, s: Submission, p: Proposal) {
    && p.status.Discussion? && p.proposer == s.proposer && p.kind == s.kind && p.deposit == s.deposit
    && p.submitHeight == g.height && p.discussionEnd == g.height + 86_400 && p.votingEnd == g.height + 388_800
    && p.tally.None? && p.signers == [] && p.pauseVotes == []
  }

  // ---------------------------------------------------------------- voting

  predicate EntersVoting(g: Gov, e: GovEvent, id: nat) {
    e.AdvanceEvent? && id in g.proposals && g.proposals[id].status.Discussion? && g.height >= g.proposals[id].discussionEnd
  }

  lemma NoDecisionOpensVoting(g: Gov, e: GovEvent)
    requires g.proposals.Keys == g.votes.Keys && Decides(e) && e.id in g.proposals && !g.proposals[e.id].status.Voting?
    ensures e.id in GovStep(g, e).proposals && !GovStep(g, e).proposals[e.id].status.Voting?
  {
    DecisionReplaces(g, e);
  }

  /** Voting opens exactly when the phases are advanced with the discussion over, and opening it changes nothing else. */
  lemma EnteringVoting(g: Gov, e: GovEvent, id: nat)
    requires GovOk(g) && id in g.proposals && !g.proposals[id].status.Voting?
    ensures id in GovStep(g, e).proposals
    ensures GovStep(g, e).proposals[id].status.Voting? <==> EntersVoting(g, e, id)
    ensures EntersVoting(g, e, id) ==> GovStep(g, e).proposals[id].(status := Discussion) == g.proposals[id]
  {
    if Decides(e) && e.id == id {
      NoDecisionOpensVoting(g, e);
    } else if !e.AdvanceEvent? {
      OthersLeaveAlone(g, e, id);
    }
  }

  /** Advancing changes no votes, no clock, and no proposal but those that enter voting. */
  lemma AdvanceTakesEffect(g: Gov, id: nat)
    ensures AdvancePhases(g).(proposals := g.proposals) == g && AdvancePhases(g).proposals.Keys == g.proposals.Keys
    ensures id in g.proposals && !EntersVoting(g, AdvanceEvent, id) ==> AdvancePhases(g).proposals[id] == g.proposals[id]
  {
  }

  /** What a vote weighs: what its voter claims, up to what it had staked at the submission if that is known. */
  predicate Weighs(p: Proposal, voter: string, claimed: u64, power: u64) {
    && (p.snapshot.None? ==> power == claimed)
    && (p.snapshot.Some? && voter !in p.snapshot.value ==> power == 0)
    && (p.snapshot.Some? && voter in p.snapshot.value ==>
          power <= claimed && power <= p.snapshot.value[voter] && (power == claimed || power == p.snapshot.value[voter]))
  }

  /** A vote is accepted until voting ends, once per voter, if it weighs anything; it joins the list with its weight. */
  lemma VoteIsAcceptedExactly(g: Gov, id: nat, voter: string, option: VoteOption, claimed: u64, power: u64)
    requires g.proposals.Keys == g.votes.Keys
    requires id in g.proposals ==> Weighs(g.proposals[id], voter, claimed, power)
    ensures var (g', r) := CastVote(g, id, voter, option, claimed);
            && (r.Done? <==> ValidAddress(voter) && id in g.proposals && g.proposals[id].status.Voting?
                             && g.height <= g.proposals[id].votingEnd && power > 0
                             && forall i :: 0 <= i < |g.votes[id]| ==> g.votes[id][i].voter != voter)
            && (r.Denied? ==> g' == g)
            && (r.Done? ==> g' == g.(votes := g.votes[id := g.votes[id] + [Vote(voter, option, power)]]))
  {
    assert id in g.proposals ==> CappedPower(g.proposals[id], voter, claimed) == power;
  }

  /** A tally is taken once, after the voting period, and settles the proposal as the votes say. */
  lemma TallyTakesEffect(g: Gov, id: nat)
    requires g.proposals.Keys == g.votes.Keys
    requires id in g.votes ==> GovernanceSafety.TotalPower(g.votes[id]) <= U64_MAX
    ensures var (g', r) := TallyProposal(g, id);
            && (r.Done? <==> id in g.proposals && g.proposals[id].status.Voting? && g.height > g.proposals[id].votingEnd)
            && (r.Denied? ==> g' == g)
            && (r.Done? ==> OnlyTouches(g, g', id) && g'.proposals[id].tally == Some(r.value))
            && (r.Done? ==> g'.proposals[id].(status := Voting, tally := g.proposals[id].tally) == g.proposals[id])
            && (r.Done? ==> var votes, status := g.votes[id], g'.proposals[id].status;
                  && status in {Passed, Rejected, Failed}
                  && (status == Passed <==> TrueMajority(votes, g.bonded))
                  && (status == Failed <==> 1000 * PowerFor(votes, NoWithVeto) > 334 * GovernanceSafety.TotalPower(votes)))
  {
    if id in g.votes {
      PassedIsMajority(g.votes[id], g.bonded);
    }
  }

  // ---------------------------------------------------------------- signing and executing

  /** A validator signs a passed upgrade once; the fifth signature executes it. */
  lemma SignatureTakesEffect(g: Gov, id: nat, validator: string)
    ensures var (g', r) := SignUpgrade(g, id, validator);
            && (r.Done? <==> id in g.proposals && g.proposals[id].kind.SoftwareUpgrade? && g.proposals[id].status.Passed?
                             && validator !in g.proposals[id].signers)
            && (r.Denied? ==> g' == g)
            && (r.Done? ==> OnlyTouches(g, g', id))
            && (r.Done? ==> var p, p' := g.proposals[id], g'.proposals[id];
                  && p'.signers == p.signers + [validator] && p'.(signers := p.signers, status := p.status) == p
                  && r.value == |p'.signers| && p'.status == if r.value >= 5 then Executed else Passed)
  {
  }

  /** A passed proposal whose effects go through is marked as executed, and that is all. */
  lemma ExecutionTakesEffect(g: Gov, id: nat, effectsOk: bool)
    ensures var (g', r) := Execute(g, id, effectsOk);
            && (r.Done? <==> id in g.proposals && g.proposals[id].status.Passed?
                             && (effectsOk || (g.proposals[id].kind != ParameterChange && g.proposals[id].kind != SlashingProposal)))
            && (r.Denied? ==> g' == g)
            && (r.Done? ==> OnlyTouches(g, g', id) && g'.proposals[id].status.Executed?)
            && (r.Done? ==> g'.proposals[id].(status := Passed) == g.proposals[id])
  {
  }

  // ---------------------------------------------------------------- how long it takes

  predicate ProposalOnTime(p: Proposal, height: u64) {
    && p.discussionEnd == p.submitHeight + 86_400 && p.votingEnd == p.submitHeight + 388_800
    && (!p.status.Discussion? ==> height >= p.discussionEnd)
    && (p.tally.Some? ==> height > p.votingEnd)
  }

  predicate OnTime(g: Gov) {
    forall id :: id in g.proposals ==> ProposalOnTime(g.proposals[id], g.height)
  }

  /** The clock only rises and stays clear of the word's end. */
  predicate Ticks(g: Gov, e: GovEvent) {
    g.height + 388_800 <= U64_MAX && (e.HeightEvent? ==> g.height <= e.height)
  }

  ghost predicate RunTicks(g: Gov, events: seq<GovEvent>) {
    forall i :: 0 <= i < |events| ==> Ticks(GovRun(g, events[..i]), events[i])
  }

  lemma DecidedOnTime(g: Gov, e: GovEvent)
    requires g.proposals.Keys == g.votes.Keys && Decides(e) && OnTime(g)
    ensures OnTime(GovStep(g, e))
  {
    DecisionReplaces(g, e);
    if e.id in g.proposals && Effective(g, e) {
      assert ProposalOnTime(g.proposals[e.id], g.height);
      assert ProposalOnTime(Decided(g, e), g.height);
    }
  }

  lemma SubmitOnTime(g: Gov, s: Submission)
    requires OnTime(g) && g.height + 388_800 <= U64_MAX
    ensures OnTime(Submit(g, s).0)
  {
  }

  lemma AdvanceOnTime(g: Gov)
    requires OnTime(g)
    ensures OnTime(AdvancePhases(g))
  {
    forall id | id in g.proposals ensures ProposalOnTime(Advanced(g.proposals[id], g.height), g.height) {
      assert ProposalOnTime(g.proposals[id], g.height);
    }
  }

  /** The other events leave all proposals as they are, and the clock no lower. */
  lemma LaterIsOnTime(g: Gov, g': Gov)
    requires OnTime(g) && g'.proposals == g.proposals && g'.height >= g.height
    ensures OnTime(g')
  {
    forall id | id in g'.proposals ensures ProposalOnTime(g'.proposals[id], g'.height) {
      assert ProposalOnTime(g.proposals[id], g.height);
    }
  }

  lemma OthersOnTime(g: Gov, e: GovEvent)
    requires OnTime(g) && Ticks(g, e) && !Decides(e) && !e.SubmitEvent? && !e.AdvanceEvent?
    ensures OnTime(GovStep(g, e))
  {
    LaterIsOnTime(g, GovStep(g, e));
  }

  lemma StepOnTime(g: Gov, e: GovEvent)
    requires GovOk(g) && OnTime(g) && Ticks(g, e)
    ensures OnTime(GovStep(g, e))
  {
    if Decides(e) {
      DecidedOnTime(g, e);
    } else if e.SubmitEvent? {
      SubmitOnTime(g, e.submission);
    } else if e.AdvanceEvent? {
      AdvanceOnTime(g);
    } else {
      OthersOnTime(g, e);
    }
  }

  /**
    With a clock that only rises, in any run: nothing is voted on before two days of discussion, and nothing
    is decided, let alone executed, before another seven days of voting are over.
   */
  lemma {:induction false} RunOnTime(events: seq<GovEvent>)
    requires RunTicks(NoProposals, events)
    ensures OnTime(GovRun(NoProposals, events))
  {
    if events != [] {
      var front, last := events[..|events| - 1], events[|events| - 1];
      assert forall i :: 0 <= i < |front| ==> front[..i] == events[..i] && front[i] == events[i];
      RunOnTime(front);
      RunKeeps(front);
      StepOnTime(GovRun(NoProposals, front), last);
    }
  }

  /** So an executed proposal is at least nine days of blocks old. */
  lemma ExecutedIsOldEnough(events: seq<GovEvent>, id: nat)
    requires RunTicks(NoProposals, events) && IsPassed(GovRun(NoProposals, events), id)
    ensures var g := GovRun(NoProposals, events); g.height > g.proposals[id].submitHeight + 86_400 + 302_400
  {
    RunOnTime(events);
    RunKeeps(events);
    var g := GovRun(NoProposals, events);
    assert ProposalOk(g.proposals[id], g.votes[id]) && ProposalOnTime(g.proposals[id], g.height);
  }
}
