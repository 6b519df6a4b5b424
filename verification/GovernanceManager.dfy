/** The governance manager as the node runs it; every method is proved to take the step of Governance.dfy. */
module GovernanceManager {
  import opened Common
  import opened Governance
  import opened Snapshots

  class Manager {
    var proposals: map<nat, Proposal>
    var votes: map<nat, seq<Vote>>
    var nextProposalId: nat
    var currentHeight: u64
    var totalBonded: u64
    var lastProposalByAddress: map<string, u64>
    var stakingSnapshots: map<u64, map<string, u64>>

    function State(): Gov
      reads this
    {
      Gov(proposals, votes, nextProposalId, currentHeight, totalBonded, lastProposalByAddress, stakingSnapshots)
    }

    constructor ()
      ensures State() == NoProposals
    {
      proposals, votes, nextProposalId := map[], map[], 1;
      currentHeight, totalBonded := 0, 0;
      lastProposalByAddress, stakingSnapshots := map[], map[];
    }

    /** The proposer's proposals that are in voting. */
    method CountActive(proposer: string) returns (count: nat)
      ensures count == |ActiveOf(State(), proposer)|
    {
      count := 0;
      var rest := proposals.Keys;
      ghost var found: set<nat> := {};
      while rest != {}
        invariant rest <= proposals.Keys && count == |found|
        invariant forall id :: id in found <==> id in proposals && id !in rest && IsActive(proposals[id], proposer)
        decreases |rest|
      {
        var id :| id in rest;
        if proposals[id].proposer == proposer && proposals[id].status == Voting {
          count, found := count + 1, found + {id};
        }
        rest := rest - {id};
      }
      assert found == ActiveOf(State(), proposer);
    }

    method CheckSubmission(s: Submission) returns (error: Option<GovError>)
      ensures error == SubmitError(State(), s)
    {
      if !ValidAddress(s.proposer) {
        return Some(BadAddress);
      }
      if !s.textsOk {
        return Some(BadText);
      }
      if s.deposit < PROPOSAL_DEPOSIT {
        return Some(DepositTooSmall);
      }
      if s.kind != EmergencyAction && !s.hasLink {
        return Some(NoDiscussionLink);
      }
      if s.kind == ParameterChange && !s.parametersOk {
        return Some(BadParameters);
      }
      if s.proposer in lastProposalByAddress {
        if currentHeight < WrapAdd(lastProposalByAddress[s.proposer], PROPOSAL_COOLDOWN_BLOCKS) {
          return Some(Cooldown);
        }
      }
      var active := CountActive(s.proposer);
      return if active >= MAX_ACTIVE_PROPOSALS then Some(TooManyActive) else None;
    }

    method SubmitProposal(s: Submission) returns (r: Reply<nat>)
      modifies this`proposals, this`votes, this`nextProposalId, this`lastProposalByAddress
      ensures (State(), r) == Submit(old(State()), s)
    {
      var error := CheckSubmission(s);
      if error.Some? {
        return Denied(error.value);
      }
      var id := nextProposalId;
      nextProposalId := nextProposalId + 1;
      lastProposalByAddress := lastProposalByAddress[s.proposer := currentHeight];
      var snapshot := None;
      if currentHeight in stakingSnapshots {
        snapshot := Some(stakingSnapshots[currentHeight]);
      }
      var votingStart := WrapAdd(currentHeight, DISCUSSION_PERIOD_BLOCKS);
      proposals := proposals[id := Proposal(s.proposer, s.kind, Discussion, currentHeight, votingStart,
                                            WrapAdd(votingStart, VOTING_PERIOD_BLOCKS), s.deposit, None, snapshot, [], [])];
      votes := votes[id := []];
      return Done(id);
    }

    method CastVote(id: nat, voter: string, option: VoteOption, power: u64) returns (r: Reply<()>)
      modifies this`votes
      ensures (State(), r) == Governance.CastVote(old(State()), id, voter, option, power)
    {
      if !ValidAddress(voter) {
        return Denied(BadAddress);
      }
      if id !in proposals {
        return Denied(ProposalNotFound);
      }
      var p := proposals[id];
      if p.status != Voting {
        return Denied(WrongStatus);
      }
      if currentHeight > p.votingEnd {
        return Denied(VotingEnded);
      }
      if power == 0 {
        return Denied(NoPower);
      }
      var verified := power;
      if p.snapshot.Some? {
        var held := if voter in p.snapshot.value then p.snapshot.value[voter] else 0;
        if held == 0 {
          return Denied(NoPower);
        }
        verified := if power <= held then power else held;
      }
      if id !in votes {
        return Denied(ProposalNotFound);
      }
      var voted := AlreadyListed(votes[id], voter);
      if voted {
        return Denied(AlreadyVoted);
      }
      votes := votes[id := votes[id] + [Vote(voter, option, verified)]];
      return Done(());
    }

    method AlreadyListed(list: seq<Vote>, voter: string) returns (found: bool)
      ensures found <==> HasVoted(list, voter)
    {
      for i := 0 to |list|
        invariant forall j :: 0 <= j < i ==> list[j].voter != voter
      {
        if list[i].voter == voter {
          return true;
        }
      }
      return false;
    }

    /** Visit every proposal once, in any order. */
    method AdvanceProposalPhases()
      modifies this`proposals
      ensures State() == AdvancePhases(old(State()))
    {
      var rest := proposals.Keys;
      while rest != {}
        invariant rest <= proposals.Keys == old(proposals).Keys
        invariant forall id :: id in proposals ==>
                    proposals[id] == if id in rest then old(proposals)[id] else Advanced(old(proposals)[id], currentHeight)
        decreases |rest|
      {
        var id :| id in rest;
        if proposals[id].status == Discussion && currentHeight >= proposals[id].discussionEnd {
          proposals := proposals[id := proposals[id].(status := Voting)];
        }
        rest := rest - {id};
      }
      assert proposals == AdvancePhases(old(State())).proposals;
    }

    /** Add up the votes, option by option; a vote with veto adds to two counters. */
    method CountVotes(list: seq<Vote>) returns (yes: u64, no: u64, abstain: u64, veto: u64)
      ensures yes == Word(PowerFor(list, Yes)) && no == Word(PowerFor(list, No) + PowerFor(list, NoWithVeto))
      ensures abstain == Word(PowerFor(list, Abstain)) && veto == Word(PowerFor(list, NoWithVeto))
    {
      yes, no, abstain, veto := 0, 0, 0, 0;
      for i := 0 to |list|
        invariant Counted(list, i, yes, no, abstain, veto)
      {
        var power := list[i].power;
        OneMoreVote(list, i, yes, no, abstain, veto);
        match list[i].option
        case Yes => yes := WrapAdd(yes, power);
        case No => no := WrapAdd(no, power);
        case Abstain => abstain := WrapAdd(abstain, power);
        case NoWithVeto =>
          no := WrapAdd(no, power);
          veto := WrapAdd(veto, power);
      }
      assert list[..|list|] == list;
    }

    method TallyProposal(id: nat) returns (r: Reply<Tally>)
      modifies this`proposals
      ensures (State(), r) == Governance.TallyProposal(old(State()), id)
    {
      if id !in proposals {
        return Denied(ProposalNotFound);
      }
      var p := proposals[id];
      if p.status != Voting {
        return Denied(WrongStatus);
      }
      if currentHeight <= p.votingEnd {
        return Denied(VotingNotEnded);
      }
      if id !in votes {
        return Denied(ProposalNotFound);
      }
      var yes, no, abstain, veto := CountVotes(votes[id]);
      var tally := Decide(yes, no, abstain, veto);
      p := p.(tally := Some(tally));
      p := p.(status := if tally.vetoed then Failed else if tally.passed then Passed else Rejected);
      proposals := proposals[id := p];
      return Done(tally);
    }

    method Decide(yes: u64, no: u64, abstain: u64, veto: u64) returns (tally: Tally)
      ensures tally == Judge(yes, no, abstain, veto, totalBonded)
    {
      var total := WrapAdd(WrapAdd(yes, no), abstain);
      var quorum := false;
      if totalBonded > 0 {
        quorum := total * 1000 >= QUORUM_PERMILLE * totalBonded;
      }
      var vetoed := false;
      if total > 0 {
        vetoed := veto * 1000 > VETO_PERMILLE * total;
      }
      var passed := false;
      if quorum && !vetoed && WrapAdd(yes, no) > 0 {
        passed := 2 * yes > WrapAdd(yes, no);
      }
      return Tally(yes, no, abstain, veto, total, totalBonded, quorum, passed, vetoed);
    }

    method SignUpgradeProposal(id: nat, validator: string) returns (r: Reply<nat>)
      modifies this`proposals
      ensures (State(), r) == SignUpgrade(old(State()), id, validator)
    {
      if id !in proposals {
        return Denied(ProposalNotFound);
      }
      var p := proposals[id];
      if p.kind != SoftwareUpgrade {
        return Denied(NotAnUpgrade);
      }
      if p.status != Passed {
        return Denied(WrongStatus);
      }
      if validator in p.signers {
        return Denied(AlreadySigned);
      }
      p := p.(signers := p.signers + [validator]);
      if |p.signers| >= UPGRADE_SIGNATURES {
        p := p.(status := Executed);
      }
      proposals := proposals[id := p];
      return Done(|p.signers|);
    }

    method EmergencyPauseVote(id: nat, validator: string, totalValidators: nat) returns (r: Reply<bool>)
      modifies this`proposals
      ensures (State(), r) == PauseVote(old(State()), id, validator, totalValidators)
    {
      if id !in proposals {
        return Denied(ProposalNotFound);
      }
      var p := proposals[id];
      if p.status != Voting && p.status != Passed {
        return Denied(WrongStatus);
      }
      if validator in p.pauseVotes {
        return Denied(AlreadyVoted);
      }
      p := p.(pauseVotes := p.pauseVotes + [validator]);
      var reached := |p.pauseVotes| >= PauseThreshold(totalValidators);
      if reached {
        p := p.(status := Paused);
      }
      proposals := proposals[id := p];
      return Done(reached);
    }

    method ExecuteProposal(id: nat, effectsOk: bool) returns (r: Reply<()>)
      modifies this`proposals
      ensures (State(), r) == Execute(old(State()), id, effectsOk)
    {
      if id !in proposals {
        return Denied(ProposalNotFound);
      }
      if proposals[id].status != Passed {
        return Denied(WrongStatus);
      }
      if (proposals[id].kind == ParameterChange || proposals[id].kind == SlashingProposal) && !effectsOk {
        return Denied(EffectsFailed);
      }
      proposals := proposals[id := proposals[id].(status := Executed)];
      return Done(());
    }

    method UpdateStakingSnapshot(height: u64, snapshot: map<string, u64>)
      modifies this`stakingSnapshots
      ensures State() == SetSnapshot(old(State()), height, snapshot)
      ensures State() == old(State()).(snapshots := stakingSnapshots) && Kept(State(), height) == Some(snapshot)
      ensures forall other: u64 :: other != height ==>
                Kept(State(), other) == if height > other + VOTING_PERIOD_BLOCKS then None else old(Kept(State(), other))
    {
      stakingSnapshots := stakingSnapshots[height := snapshot];
      var oldest := SaturatingSub(height, VOTING_PERIOD_BLOCKS);
      stakingSnapshots := map h | h in stakingSnapshots && h >= oldest :: stakingSnapshots[h];
    }
  }

  /** The counters after the first i votes. */
  predicate Counted(list: seq<Vote>, i: nat, yes: u64, no: u64, abstain: u64, veto: u64)
    requires i <= |list|
  {
    && yes == Word(PowerFor(list[..i], Yes))
    && no == Word(PowerFor(list[..i], No) + PowerFor(list[..i], NoWithVeto))
    && abstain == Word(PowerFor(list[..i], Abstain))
    && veto == Word(PowerFor(list[..i], NoWithVeto))
  }

  lemma OneMoreVote(list: seq<Vote>, i: nat, yes: u64, no: u64, abstain: u64, veto: u64)
    requires i < |list| && Counted(list, i, yes, no, abstain, veto)
    ensures var power := list[i].power;
            match list[i].option
            case Yes => Counted(list, i + 1, WrapAdd(yes, power), no, abstain, veto)
            case No => Counted(list, i + 1, yes, WrapAdd(no, power), abstain, veto)
            case Abstain => Counted(list, i + 1, yes, no, WrapAdd(abstain, power), veto)
            case NoWithVeto => Counted(list, i + 1, yes, WrapAdd(no, power), abstain, WrapAdd(veto, power))
  {
    assert list[..i + 1][..i] == list[..i];
    AddToWord(PowerFor(list[..i], list[i].option), list[i].power);
    AddToWord(PowerFor(list[..i], No) + PowerFor(list[..i], NoWithVeto), list[i].power);
  }
}
