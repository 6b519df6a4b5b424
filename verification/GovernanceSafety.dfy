/** What every run of governance keeps, and what an executed proposal has gone through. */
module GovernanceSafety {
  import opened Common
  import opened Sums
  import opened Governance

  // ---------------------------------------------------------------- the tally

  function TotalPower(votes: seq<Vote>): nat {
    if votes == [] then 0 else TotalPower(votes[..|votes| - 1]) + votes[|votes| - 1].power
  }

  /** Every vote counts for exactly one option. */
  lemma {:induction false} OptionsAddUp(votes: seq<Vote>)
    ensures PowerFor(votes, Yes) + PowerFor(votes, No) + PowerFor(votes, NoWithVeto) + PowerFor(votes, Abstain) == TotalPower(votes)
  {
    if votes != [] {
      OptionsAddUp(votes[..|votes| - 1]);
    }
  }

  lemma TallyIsExact(votes: seq<Vote>, bonded: u64)
    requires TotalPower(votes) <= U64_MAX
    ensures PowerFor(votes, Yes) <= U64_MAX && PowerFor(votes, No) + PowerFor(votes, NoWithVeto) <= U64_MAX
    ensures PowerFor(votes, Abstain) <= U64_MAX
    ensures TallyOf(votes, bonded)
         == Judge(PowerFor(votes, Yes), PowerFor(votes, No) + PowerFor(votes, NoWithVeto), PowerFor(votes, Abstain),
                  PowerFor(votes, NoWithVeto), bonded)
  {
    OptionsAddUp(votes);
  }

  lemma JudgedByMajority(yes: u64, no: u64, abstain: u64, veto: u64, bonded: u64)
    requires yes + no + abstain <= U64_MAX && veto <= no
    ensures var t := Judge(yes, no, abstain, veto, bonded);
            && t.total == yes + no + abstain
            && (t.vetoed <==> 1000 * veto > 334 * t.total)
            && (t.passed <==> bonded > 0 && 1000 * t.total >= 334 * bonded && 1000 * veto <= 334 * t.total && yes > no)
  {
  }

  /** Quorum of what is bonded, at most a third of vetoes, and more yes than no, on unbounded sums. */
  predicate TrueMajority(votes: seq<Vote>, bonded: u64) {
    && bonded > 0 && 1000 * TotalPower(votes) >= 334 * bonded
    && 1000 * PowerFor(votes, NoWithVeto) <= 334 * TotalPower(votes)
    && PowerFor(votes, Yes) > PowerFor(votes, No) + PowerFor(votes, NoWithVeto)
  }

  /** As long as the votes' power fits the word, a tally passes exactly on a true majority. */
  lemma PassedIsMajority(votes: seq<Vote>, bonded: u64)
    requires TotalPower(votes) <= U64_MAX
    ensures TallyOf(votes, bonded).passed <==> TrueMajority(votes, bonded)
    ensures TallyOf(votes, bonded).vetoed <==> 1000 * PowerFor(votes, NoWithVeto) > 334 * TotalPower(votes)
    ensures TallyOf(votes, bonded).total == TotalPower(votes)
  {
    OptionsAddUp(votes);
    TallyIsExact(votes, bonded);
    JudgedByMajority(PowerFor(votes, Yes), PowerFor(votes, No) + PowerFor(votes, NoWithVeto), PowerFor(votes, Abstain),
                     PowerFor(votes, NoWithVeto), bonded);
  }

  const HALF: u64 := 0x8000_0000_0000_0000

  /** Two yes votes that together wrap the counter, and as much abstaining power as asked for, each by another voter. */
  function WrappingVotes(abstaining: nat): (votes: seq<Vote>)
    ensures forall i :: 0 <= i < |votes| ==> |votes[i].voter| == i
  {
    if abstaining == 0 then [Vote("", Yes, HALF), Vote("a", Yes, HALF)]
    else
      var power := Min(abstaining, U64_MAX);
      var front := WrappingVotes(abstaining - power);
      front + [Vote(seq(|front|, _ => 'a'), Abstain, power)]
  }

  lemma {:induction false} WrappingPower(abstaining: nat)
    ensures var votes := WrappingVotes(abstaining);
            && PowerFor(votes, Yes) == U64_SIZE && PowerFor(votes, No) == 0 && PowerFor(votes, NoWithVeto) == 0
            && TotalPower(votes) == U64_SIZE + abstaining
  {
    var votes := WrappingVotes(abstaining);
    if abstaining == 0 {
      assert votes[..1] == [votes[0]] && votes[..1][..0] == [];
      assert PowerFor(votes[..1], Yes) == TotalPower(votes[..1]) == HALF;
      assert PowerFor(votes[..1], No) == PowerFor(votes[..1], NoWithVeto) == 0;
    } else {
      var power := Min(abstaining, U64_MAX);
      assert votes[..|votes| - 1] == WrappingVotes(abstaining - power);
      WrappingPower(abstaining - power);
    }
  }

  /** Without a single no, the wrapped tally rejects. */
  lemma WrappedTallyRejects(abstaining: nat)
    ensures var votes := WrappingVotes(abstaining);
            DistinctVoters(votes) && TrueMajority(votes, 1) && Outcome(TallyOf(votes, 1)) == Rejected
  {
    WrappingPower(abstaining);
    var votes := WrappingVotes(abstaining);
    assert Word(PowerFor(votes, Yes)) == 0;
  }

  /** Tallies over distinct voters of this total power agree with the true majority exactly while the total fits the word. */
  lemma TallyIsTrueExactly(total: nat)
    ensures (forall votes, bonded :: DistinctVoters(votes) && TotalPower(votes) == total ==>
               (TallyOf(votes, bonded).passed <==> TrueMajority(votes, bonded)))
       <==> total <= U64_MAX
  {
    if total <= U64_MAX {
      forall votes, bonded | DistinctVoters(votes) && TotalPower(votes) == total
        ensures TallyOf(votes, bonded).passed <==> TrueMajority(votes, bonded)
      {
        PassedIsMajority(votes, bonded);
      }
    } else {
      WrappingPower(total - U64_SIZE);
      WrappedTallyRejects(total - U64_SIZE);
      var votes := WrappingVotes(total - U64_SIZE);
      assert TallyOf(votes, 1).passed <==> !TrueMajority(votes, 1);
    }
  }

  // ---------------------------------------------------------------- votes

  /** A vote that goes through adds the voter's capped power to its option and to no other, on no other proposal. */
  lemma VoteIsCounted(g: Gov, id: nat, voter: string, option: VoteOption, power: u64, other: VoteOption)
    requires CastVote(g, id, voter, option, power).1.Done?
    ensures var g' := CastVote(g, id, voter, option, power).0;
            && id in g.proposals && id in g.votes && g'.proposals == g.proposals
            && g'.votes.Keys == g.votes.Keys && (forall i :: i in g.votes && i != id ==> g'.votes[i] == g.votes[i])
            && PowerFor(g'.votes[id], other)
               == PowerFor(g.votes[id], other) + if other == option then CappedPower(g.proposals[id], voter, power) else 0
  {
    var votes := CastVote(g, id, voter, option, power).0.votes[id];
    assert votes[..|votes| - 1] == g.votes[id];
  }

  predicate DistinctVoters(votes: seq<Vote>) {
    forall i, j :: 0 <= i < j < |votes| ==> votes[i].voter != votes[j].voter
  }

  /** Each vote is capped by what its voter had staked when the proposal was made. */
  predicate Capped(votes: seq<Vote>, snapshot: map<string, u64>) {
    forall i :: 0 <= i < |votes| ==> votes[i].voter in snapshot && 0 < votes[i].power <= snapshot[votes[i].voter]
  }

  function AsPowers(snapshot: map<string, u64>): map<string, nat> {
    map a | a in snapshot :: snapshot[a]
  }

  /** Together, distinct voters never weigh more than the snapshot. */
  lemma {:induction false} CappedBySnapshot(votes: seq<Vote>, snapshot: map<string, u64>)
    requires DistinctVoters(votes) && Capped(votes, snapshot)
    ensures TotalPower(votes) <= MapSum(AsPowers(snapshot))
  {
    if votes != [] {
      var last := votes[|votes| - 1];
      CappedBySnapshot(votes[..|votes| - 1], snapshot - {last.voter});
      assert AsPowers(snapshot - {last.voter}) == AsPowers(snapshot) - {last.voter};
      MapSumRemove(AsPowers(snapshot), last.voter);
    }
  }

  // ---------------------------------------------------------------- one proposal

  predicate Distinct(names: seq<string>) {
    forall i, j :: 0 <= i < j < |names| ==> names[i] != names[j]
  }

  /** The stored tally is a recount of the vote list, and the status is what the tally says. */
  predicate TallyOk(p: Proposal, votes: seq<Vote>) {
    match p.tally
    case None => p.status.Discussion? || p.status.Voting? || p.status.Paused?
    case Some(t) =>
      && t == TallyOf(votes, t.bonded)
      && match p.status {
           case Discussion => false
           case Voting => false
           case Passed => Outcome(t) == Passed
           case Executed => Outcome(t) == Passed
           case Paused => Outcome(t) == Passed
           case Rejected => Outcome(t) == Rejected
           case Failed => Outcome(t) == Failed
         }
  }

  predicate VotesOk(p: Proposal, votes: seq<Vote>) {
    && DistinctVoters(votes)
    && (p.snapshot.Some? ==> Capped(votes, p.snapshot.value))
    && (p.status.Discussion? ==> votes == [])
  }

  predicate SignersOk(p: Proposal) {
    && Distinct(p.signers) && Distinct(p.pauseVotes)
    && (p.signers != [] ==> p.kind.SoftwareUpgrade? && p.tally.Some?)
    && (|p.signers| >= UPGRADE_SIGNATURES ==> p.status.Executed?)
  }

  predicate ProposalOk(p: Proposal, votes: seq<Vote>) {
    TallyOk(p, votes) && VotesOk(p, votes) && SignersOk(p)
  }

  predicate GovOk(g: Gov) {
    && g.proposals.Keys == g.votes.Keys
    && (forall id :: id in g.proposals ==> id < g.nextId)
    && (forall id :: id in g.proposals ==> ProposalOk(g.proposals[id], g.votes[id]))
  }

  /** How far a status is from the start; every change goes up. */
  function Rank(s: Status): nat {
    match s
    case Discussion => 0
    case Voting => 1
    case Passed => 2
    case Rejected => 2
    case Failed => 2
    case Executed => 3
    case Paused => 3
  }

  /** How a proposal and its votes may change in one step. */
  predicate Progress(p: Proposal, votes: seq<Vote>, p': Proposal, votes': seq<Vote>) {
    && p'.kind == p.kind && p'.snapshot == p.snapshot && p'.proposer == p.proposer
    && p'.votingEnd == p.votingEnd && p'.submitHeight == p.submitHeight
    && (p'.status == p.status || Rank(p'.status) > Rank(p.status))
    && (votes' != votes ==> p.status.Voting? && p'.status.Voting?)
    && (p.tally.Some? ==> p'.tally == p.tally)
  }

  predicate StepProgress(g: Gov, g': Gov) {
    && g.nextId <= g'.nextId
    && forall id :: id in g.proposals && id in g.votes ==>
         id in g'.proposals && id in g'.votes && Progress(g.proposals[id], g.votes[id], g'.proposals[id], g'.votes[id])
  }

  /** One proposal replaced, or its votes extended, and nothing else. */
  predicate Replaces(g: Gov, g': Gov, id: nat, p: Proposal, votes: seq<Vote>) {
    && id in g.proposals
    && g'.proposals == g.proposals[id := p] && g'.votes == g.votes[id := votes] && g'.nextId == g.nextId
  }

  lemma ReplaceIsOk(g: Gov, g': Gov, id: nat, p: Proposal, votes: seq<Vote>)
    requires GovOk(g) && Replaces(g, g', id, p, votes) && ProposalOk(p, votes)
    ensures GovOk(g')
  {
  }

  lemma ReplaceProgresses(g: Gov, g': Gov, id: nat, p: Proposal, votes: seq<Vote>)
    requires Replaces(g, g', id, p, votes) && id in g.votes && Progress(g.proposals[id], g.votes[id], p, votes)
    ensures StepProgress(g, g')
  {
  }

  lemma SubmitKeeps(g: Gov, s: Submission)
    requires GovOk(g)
    ensures GovOk(Submit(g, s).0) && StepProgress(g, Submit(g, s).0)
  {
    if SubmitError(g, s).None? {
      assert ProposalOk(NewProposal(g, s), []);
      assert g.nextId !in g.proposals;
    }
  }

  lemma VoteKeeps(g: Gov, id: nat, voter: string, option: VoteOption, power: u64)
    requires GovOk(g)
    ensures var g' := CastVote(g, id, voter, option, power).0; GovOk(g') && StepProgress(g, g')
  {
    var g' := CastVote(g, id, voter, option, power).0;
    if g' != g {
      var p, votes := g.proposals[id], g.votes[id];
      assert ProposalOk(p, votes);
      assert ProposalOk(p, votes + [Vote(voter, option, CappedPower(p, voter, power))]);
      assert g.proposals[id := p] == g.proposals;
      ReplaceIsOk(g, g', id, p, g'.votes[id]);
      ReplaceProgresses(g, g', id, p, g'.votes[id]);
    }
  }

  lemma AdvancedIsOk(p: Proposal, votes: seq<Vote>, height: u64)
    requires ProposalOk(p, votes)
    ensures ProposalOk(Advanced(p, height), votes) && Progress(p, votes, Advanced(p, height), votes)
  {
  }

  lemma AdvanceKeeps(g: Gov)
    requires GovOk(g)
    ensures GovOk(AdvancePhases(g)) && StepProgress(g, AdvancePhases(g))
  {
    forall id | id in g.proposals
      ensures ProposalOk(Advanced(g.proposals[id], g.height), g.votes[id])
      ensures Progress(g.proposals[id], g.votes[id], Advanced(g.proposals[id], g.height), g.votes[id])
    {
      AdvancedIsOk(g.proposals[id], g.votes[id], g.height);
    }
  }

  predicate Decides(e: GovEvent) {
    e.TallyEvent? || e.SignEvent? || e.PauseEvent? || e.ExecuteEvent?
  }

  lemma TalliedIsOk(p: Proposal, votes: seq<Vote>, bonded: u64)
    requires ProposalOk(p, votes) && p.status.Voting?
    ensures ProposalOk(Tallied(p, votes, bonded), votes) && Progress(p, votes, Tallied(p, votes, bonded), votes)
  {
  }

  lemma SignedIsOk(p: Proposal, votes: seq<Vote>, validator: string)
    requires ProposalOk(p, votes) && p.status.Passed? && p.kind.SoftwareUpgrade? && validator !in p.signers
    ensures ProposalOk(Signed(p, validator), votes) && Progress(p, votes, Signed(p, validator), votes)
  {
  }

  lemma PauseVotedIsOk(p: Proposal, votes: seq<Vote>, validator: string, validators: nat)
    requires ProposalOk(p, votes) && (p.status.Voting? || p.status.Passed?) && validator !in p.pauseVotes
    ensures var p' := PauseVoted(p, validator, validators); ProposalOk(p', votes) && Progress(p, votes, p', votes)
  {
  }

  /** The proposal that a decision which goes through leaves behind. */
  function Decided(g: Gov, e: GovEvent): Proposal
    requires Decides(e) && e.id in g.proposals && e.id in g.votes
  {
    var p := g.proposals[e.id];
    match e
    case TallyEvent(id) => Tallied(p, g.votes[id], g.bonded)
    case SignEvent(_, validator) => Signed(p, validator)
    case PauseEvent(_, validator, validators) => PauseVoted(p, validator, validators)
    case ExecuteEvent(_, _) => p.(status := Executed)
  }

  /** Does a decision go through? */
  predicate Effective(g: Gov, e: GovEvent)
    requires Decides(e) && e.id in g.proposals
  {
    var p := g.proposals[e.id];
    match e
    case TallyEvent(_) => p.status.Voting? && g.height > p.votingEnd
    case SignEvent(_, validator) => p.kind.SoftwareUpgrade? && p.status.Passed? && validator !in p.signers
    case PauseEvent(_, validator, _) => (p.status.Voting? || p.status.Passed?) && validator !in p.pauseVotes
    case ExecuteEvent(_, effectsOk) => p.status.Passed? && (CanFail(p.kind) ==> effectsOk)
  }

  /** Tally, signature, pause vote and execution replace one proposal, or do nothing. */
  lemma DecisionReplaces(g: Gov, e: GovEvent)
    requires g.proposals.Keys == g.votes.Keys && Decides(e)
    ensures GovStep(g, e) == if e.id in g.proposals && Effective(g, e)
                             then g.(proposals := g.proposals[e.id := Decided(g, e)]) else g
  {
  }

  lemma DecidedIsOk(g: Gov, e: GovEvent)
    requires GovOk(g) && Decides(e) && e.id in g.proposals && Effective(g, e)
    ensures ProposalOk(Decided(g, e), g.votes[e.id])
    ensures Progress(g.proposals[e.id], g.votes[e.id], Decided(g, e), g.votes[e.id])
  {
    var p, votes := g.proposals[e.id], g.votes[e.id];
    assert ProposalOk(p, votes);
    match e
    case TallyEvent(_) => TalliedIsOk(p, votes, g.bonded);
    case SignEvent(_, validator) => SignedIsOk(p, votes, validator);
    case PauseEvent(_, validator, validators) => PauseVotedIsOk(p, votes, validator, validators);
    case ExecuteEvent(_, _) =>
  }

  lemma ReplacedIsOk(g: Gov, id: nat, p: Proposal)
    requires GovOk(g) && id in g.proposals && ProposalOk(p, g.votes[id]) && Progress(g.proposals[id], g.votes[id], p, g.votes[id])
    ensures GovOk(g.(proposals := g.proposals[id := p])) && StepProgress(g, g.(proposals := g.proposals[id := p]))
  {
    var g' := g.(proposals := g.proposals[id := p]);
    assert g.votes[id := g.votes[id]] == g.votes;
    ReplaceIsOk(g, g', id, p, g.votes[id]);
    ReplaceProgresses(g, g', id, p, g.votes[id]);
  }

  lemma DecideKeeps(g: Gov, e: GovEvent)
    requires GovOk(g) && Decides(e)
    ensures GovOk(GovStep(g, e)) && StepProgress(g, GovStep(g, e))
  {
    DecisionReplaces(g, e);
    if e.id in g.proposals && Effective(g, e) {
      DecidedIsOk(g, e);
      ReplacedIsOk(g, e.id, Decided(g, e));
    }
  }

  lemma StepKeeps(g: Gov, e: GovEvent)
    requires GovOk(g)
    ensures GovOk(GovStep(g, e)) && StepProgress(g, GovStep(g, e))
  {
    match e
    case SubmitEvent(submission) => SubmitKeeps(g, submission);
    case VoteEvent(id, voter, option, power) => VoteKeeps(g, id, voter, option, power);
    case AdvanceEvent => AdvanceKeeps(g);
    case TallyEvent(_) => DecideKeeps(g, e);
    case SignEvent(_, _) => DecideKeeps(g, e);
    case PauseEvent(_, _, _) => DecideKeeps(g, e);
    case ExecuteEvent(_, _) => DecideKeeps(g, e);
    case _ =>
  }

  /** In every run, every stored tally is a recount, voters are distinct and capped, statuses fit their tallies. */
  lemma {:induction false} RunKeeps(events: seq<GovEvent>)
    ensures GovOk(GovRun(NoProposals, events))
  {
    if events != [] {
      RunKeeps(events[..|events| - 1]);
      StepKeeps(GovRun(NoProposals, events[..|events| - 1]), events[|events| - 1]);
    }
  }

  // ---------------------------------------------------------------- statuses over time

  /** The state after the first i events. */
  function At(events: seq<GovEvent>, i: nat): Gov
    requires i <= |events|
  {
    GovRun(NoProposals, events[..i])
  }

  lemma AtNext(events: seq<GovEvent>, i: nat)
    requires i < |events|
    ensures At(events, i + 1) == GovStep(At(events, i), events[i])
  {
    assert events[..i + 1][..i] == events[..i];
  }

  /** A status once left is never entered again, a stored tally never changes, and the votes behind it are frozen. */
  lemma {:induction false} NothingGoesBack(events: seq<GovEvent>, id: nat, i: nat, j: nat)
    requires i <= j <= |events| && id in At(events, i).proposals
    ensures id in At(events, j).proposals && id in At(events, i).votes && id in At(events, j).votes
    ensures var p, q := At(events, i).proposals[id], At(events, j).proposals[id];
            && (q.status == p.status || Rank(q.status) > Rank(p.status))
            && (p.tally.Some? ==> q.tally == p.tally && At(events, j).votes[id] == At(events, i).votes[id])
            && q.snapshot == p.snapshot && q.votingEnd == p.votingEnd && q.kind == p.kind
    decreases j - i
  {
    RunKeeps(events[..i]);
    if i < j {
      StepKeeps(At(events, i), events[i]);
      AtNext(events, i);
      assert ProposalOk(At(events, i).proposals[id], At(events, i).votes[id]);
      NothingGoesBack(events, id, i + 1, j);
    }
  }

  /** The tally that passed this proposal: taken in the voting status, after the voting period. */
  ghost predicate PassedBy(events: seq<GovEvent>, id: nat, i: nat) {
    && i < |events| && events[i] == TallyEvent(id)
    && id in At(events, i).proposals && id in At(events, i).votes
    && At(events, i).proposals[id].status.Voting?
    && At(events, i).height > At(events, i).proposals[id].votingEnd
    && TallyOf(At(events, i).votes[id], At(events, i).bonded).passed
  }

  /** Only a decision on it, or the end of its discussion, touches a proposal's record. */
  lemma OthersLeaveAlone(g: Gov, e: GovEvent, id: nat)
    requires GovOk(g) && !(Decides(e) && e.id == id) && !e.AdvanceEvent?
    ensures var g' := GovStep(g, e);
            && (id in g.proposals ==> id in g'.proposals && g'.proposals[id] == g.proposals[id])
            && (id !in g.proposals && id in g'.proposals ==> g'.proposals[id].status.Discussion?)
  {
    if Decides(e) {
      DecisionReplaces(g, e);
    } else {
      assert g.nextId !in g.proposals;
      UndecidedLeaveAlone(g, e, id);
    }
  }

  lemma UndecidedLeaveAlone(g: Gov, e: GovEvent, id: nat)
    requires g.nextId !in g.proposals && !Decides(e) && !e.AdvanceEvent?
    ensures var g' := GovStep(g, e);
            && (id in g.proposals ==> id in g'.proposals && g'.proposals[id] == g.proposals[id])
            && (id !in g.proposals && id in g'.proposals ==> g'.proposals[id].status.Discussion?)
  {
  }

  predicate IsPassed(g: Gov, id: nat) {
    id in g.proposals && (g.proposals[id].status.Passed? || g.proposals[id].status.Executed?)
  }

  lemma EnteringPassed(g: Gov, e: GovEvent, id: nat)
    requires GovOk(g) && IsPassed(GovStep(g, e), id) && !IsPassed(g, id)
    ensures e == TallyEvent(id) && id in g.proposals && g.proposals[id].status.Voting?
    ensures g.height > g.proposals[id].votingEnd && TallyOf(g.votes[id], g.bonded).passed
  {
    if Decides(e) && e.id == id {
      DecisionReplaces(g, e);
      assert id in g.proposals && Effective(g, e);
      assert GovStep(g, e).proposals[id] == Decided(g, e);
    } else if !e.AdvanceEvent? {
      OthersLeaveAlone(g, e, id);
    }
  }

  /** Every executed proposal was passed by a tally after its voting period, some time before. */
  lemma {:induction false} ExecutedWasPassed(events: seq<GovEvent>, id: nat, n: nat) returns (i: nat)
    requires n <= |events| && IsPassed(At(events, n), id)
    ensures i < n && PassedBy(events, id, i)
    decreases n
  {
    assert At(events, 0) == NoProposals;
    var g := At(events, n - 1);
    AtNext(events, n - 1);
    if IsPassed(g, id) {
      i := ExecutedWasPassed(events, id, n - 1);
    } else {
      RunKeeps(events[..n - 1]);
      EnteringPassed(g, events[n - 1], id);
      i := n - 1;
    }
  }

  /** What it takes to go from one status to executed. */
  predicate Executes(p: Proposal, e: GovEvent, id: nat) {
    && p.status.Passed?
    && ((e.ExecuteEvent? && e.id == id && (CanFail(p.kind) ==> e.effectsOk))
        || (e.SignEvent? && e.id == id && p.kind.SoftwareUpgrade?
            && e.validator !in p.signers && |p.signers| == UPGRADE_SIGNATURES - 1))
  }

  lemma DecidedExecutes(g: Gov, e: GovEvent)
    requires Decides(e) && e.id in g.proposals && e.id in g.votes && Effective(g, e)
    requires SignersOk(g.proposals[e.id]) && !g.proposals[e.id].status.Executed?
    ensures Decided(g, e).status.Executed? <==> Executes(g.proposals[e.id], e, e.id)
  {
  }

  lemma DecisionExecutes(g: Gov, e: GovEvent)
    requires GovOk(g) && Decides(e) && e.id in g.proposals && !g.proposals[e.id].status.Executed?
    ensures e.id in GovStep(g, e).proposals
    ensures GovStep(g, e).proposals[e.id].status.Executed? <==> Executes(g.proposals[e.id], e, e.id)
  {
    DecisionReplaces(g, e);
    assert ProposalOk(g.proposals[e.id], g.votes[e.id]);
    if Effective(g, e) {
      DecidedExecutes(g, e);
    }
  }

  lemma OthersExecuteNothing(g: Gov, e: GovEvent, id: nat)
    requires GovOk(g) && id in g.proposals && !g.proposals[id].status.Executed? && !(Decides(e) && e.id == id)
    ensures id in GovStep(g, e).proposals && !GovStep(g, e).proposals[id].status.Executed?
    ensures !Executes(g.proposals[id], e, id)
  {
    if !e.AdvanceEvent? {
      OthersLeaveAlone(g, e, id);
    }
  }

  /** The two ways into execution: a call on a passed proposal, or the fifth distinct signature on a passed upgrade. */
  lemma EnteringExecuted(g: Gov, e: GovEvent, id: nat)
    requires GovOk(g) && id in g.proposals && !g.proposals[id].status.Executed?
    ensures id in GovStep(g, e).proposals
    ensures GovStep(g, e).proposals[id].status.Executed? <==> Executes(g.proposals[id], e, id)
  {
    if Decides(e) && e.id == id {
      DecisionExecutes(g, e);
    } else {
      OthersExecuteNothing(g, e, id);
    }
  }

  /**
    Putting it together: in any run, an executed proposal with a snapshot that fits the word has, in the
    vote list as it still stands, a quorum of what was bonded then, no veto, and a true yes majority.
   */
  lemma ExecutedIsLegitimate(events: seq<GovEvent>, id: nat) returns (i: nat)
    requires id in At(events, |events|).proposals && At(events, |events|).proposals[id].status.Executed?
    requires At(events, |events|).proposals[id].snapshot.Some?
    requires MapSum(AsPowers(At(events, |events|).proposals[id].snapshot.value)) <= U64_MAX
    ensures i < |events| && PassedBy(events, id, i) && id in At(events, |events|).votes
    ensures var votes, bonded := At(events, |events|).votes[id], At(events, i).bonded;
            && DistinctVoters(votes)
            && TotalPower(votes) <= MapSum(AsPowers(At(events, |events|).proposals[id].snapshot.value))
            && At(events, |events|).proposals[id].tally == Some(TallyOf(votes, bonded))
            && TrueMajority(votes, bonded)
  {
    i := ExecutedWasPassed(events, id, |events|);
    AtNext(events, i);
    NothingGoesBack(events, id, i + 1, |events|);
    RunKeeps(events);
    assert events[..|events|] == events;
    var end := At(events, |events|);
    assert ProposalOk(end.proposals[id], end.votes[id]);
    CappedBySnapshot(end.votes[id], end.proposals[id].snapshot.value);
    PassedIsMajority(end.votes[id], At(events, i).bonded);
  }

  // ---------------------------------------------------------------- rate limit

  /** One address's proposals lie a cooldown apart. */
  predicate Spaced(g: Gov) {
    && (forall id :: id in g.proposals ==>
          && id < g.nextId && g.proposals[id].submitHeight <= g.height
          && g.proposals[id].proposer in g.lastProposal
          && g.proposals[id].submitHeight <= g.lastProposal[g.proposals[id].proposer])
    && (forall a :: a in g.lastProposal ==> g.lastProposal[a] <= g.height)
    && (forall i, j :: i in g.proposals && j in g.proposals && i < j && g.proposals[i].proposer == g.proposals[j].proposer ==>
          g.proposals[i].submitHeight + PROPOSAL_COOLDOWN_BLOCKS <= g.proposals[j].submitHeight)
  }

  /** The chain's height only rises and stays clear of the word's end. */
  predicate Rises(g: Gov, e: GovEvent) {
    e.HeightEvent? ==> g.height <= e.height <= U64_MAX - PROPOSAL_COOLDOWN_BLOCKS
  }

  lemma SubmitIsSpaced(g: Gov, s: Submission)
    requires Spaced(g) && g.height <= U64_MAX - PROPOSAL_COOLDOWN_BLOCKS
    ensures Spaced(Submit(g, s).0)
  {
  }

  lemma OthersSubmitNothing(g: Gov, e: GovEvent)
    requires !e.SubmitEvent?
    ensures var g' := GovStep(g, e);
            g'.proposals.Keys == g.proposals.Keys && g'.lastProposal == g.lastProposal && g'.nextId == g.nextId
  {
  }

  lemma StepIsSpaced(g: Gov, e: GovEvent)
    requires GovOk(g) && Spaced(g) && Rises(g, e) && g.height <= U64_MAX - PROPOSAL_COOLDOWN_BLOCKS
    ensures Spaced(GovStep(g, e)) && GovStep(g, e).height <= U64_MAX - PROPOSAL_COOLDOWN_BLOCKS
  {
    if e.SubmitEvent? {
      SubmitIsSpaced(g, e.submission);
    } else {
      StepKeeps(g, e);
      OthersSubmitNothing(g, e);
      HeightRises(g, e);
      SpacedCarriesOver(g, GovStep(g, e));
    }
  }

  lemma HeightRises(g: Gov, e: GovEvent)
    requires Rises(g, e) && g.height <= U64_MAX - PROPOSAL_COOLDOWN_BLOCKS
    ensures g.height <= GovStep(g, e).height <= U64_MAX - PROPOSAL_COOLDOWN_BLOCKS
  {
  }

  lemma SpacedCarriesOver(g: Gov, g': Gov)
    requires GovOk(g) && Spaced(g) && StepProgress(g, g')
    requires g'.proposals.Keys == g.proposals.Keys && g'.lastProposal == g.lastProposal && g'.nextId == g.nextId
    requires g.height <= g'.height
    ensures Spaced(g')
  {
  }

  lemma {:induction false} RunIsSpaced(events: seq<GovEvent>)
    requires forall i :: 0 <= i < |events| ==> Rises(At(events, i), events[i])
    ensures Spaced(GovRun(NoProposals, events)) && GovRun(NoProposals, events).height <= U64_MAX - PROPOSAL_COOLDOWN_BLOCKS
  {
    if events != [] {
      var front := events[..|events| - 1];
      assert forall i :: 0 <= i < |front| ==> front[..i] == events[..i];
      assert forall i :: 0 <= i < |front| ==> At(front, i) == At(events, i);
      RunIsSpaced(front);
      RunKeeps(front);
      StepIsSpaced(GovRun(NoProposals, front), events[|front|]);
    }
  }
}
