/**
  The proposal lifecycle as a state machine: discussion, voting, tally, signatures, pause, execution.
  The class in GovernanceManager.dfy takes exactly these steps.
 */
module Governance {
  import opened Common
  import opened Doubles

  const PROPOSAL_DEPOSIT: u64 := 1_000_000_000_000
  const VOTING_PERIOD_BLOCKS: u64 := 302_400
  const DISCUSSION_PERIOD_BLOCKS: u64 := 86_400
  const PROPOSAL_COOLDOWN_BLOCKS: u64 := 43_200
  const MAX_ACTIVE_PROPOSALS: nat := 3
  const UPGRADE_SIGNATURES: nat := 5
  /** Thresholds in thousandths and hundredths: a third of the stake, a third of the votes, two thirds of the validators. */
  const QUORUM_PERMILLE: nat := 334
  const VETO_PERMILLE: nat := 334
  const PAUSE_PERCENT: nat := 67

  datatype Kind = ParameterChange | SoftwareUpgrade | CommunityPool | TextProposal | EmergencyAction | SlashingProposal

  datatype Status = Discussion | Voting | Passed | Rejected | Failed | Executed | Paused

  datatype VoteOption = Yes | No | Abstain | NoWithVeto

  datatype Vote = Vote(voter: string, option: VoteOption, power: u64)

  datatype Tally = Tally(
    yes: u64, no: u64, abstain: u64, veto: u64, total: u64, bonded: u64, quorum: bool, passed: bool, vetoed: bool)

  datatype Proposal = Proposal(
    proposer: string, kind: Kind, status: Status, submitHeight: u64, discussionEnd: u64, votingEnd: u64, deposit: u64,
    tally: Option<Tally>, snapshot: Option<map<string, u64>>, signers: seq<string>, pauseVotes: seq<string>)

  datatype Gov = Gov(
    proposals: map<nat, Proposal>, votes: map<nat, seq<Vote>>, nextId: nat, height: u64, bonded: u64,
    lastProposal: map<string, u64>, snapshots: map<u64, map<string, u64>>)

  const NoProposals: Gov := Gov(map[], map[], 1, 0, 0, map[], map[])

  datatype GovError =
    | BadAddress | BadText | DepositTooSmall | NoDiscussionLink | BadParameters | Cooldown | TooManyActive
    | ProposalNotFound | WrongStatus | VotingEnded | VotingNotEnded | NoPower | AlreadyVoted
    | NotAnUpgrade | AlreadySigned | EffectsFailed

  datatype Reply<+T> = Done(value: T) | Denied(error: GovError)

  // ---------------------------------------------------------------- addresses

  predicate AddressChar(c: char) {
    ('0' <= c <= '9' || 'a' <= c <= 'z') && c !in {'1', 'b', 'i', 'o'}
  }

  predicate ValidAddress(a: string) {
    39 <= |a| <= 64 && a[..7] == "sultan1" && forall i :: 7 <= i < |a| ==> AddressChar(a[i])
  }

  // ---------------------------------------------------------------- submitting

  /** What a submission brings along; texts and parameter values only matter through their checks. */
  datatype Submission = Submission(
    proposer: string, textsOk: bool, kind: Kind, deposit: u64, parametersOk: bool, hasLink: bool)

  predicate IsActive(p: Proposal, proposer: string) {
    p.proposer == proposer && p.status == Voting
  }

  function ActiveOf(g: Gov, proposer: string): set<nat> {
    set id | id in g.proposals && IsActive(g.proposals[id], proposer)
  }

  function SubmitError(g: Gov, s: Submission): Option<GovError> {
    if !ValidAddress(s.proposer) then Some(BadAddress)
    else if !s.textsOk then Some(BadText)
    else if s.deposit < PROPOSAL_DEPOSIT then Some(DepositTooSmall)
    else if !s.kind.EmergencyAction? && !s.hasLink then Some(NoDiscussionLink)
    else if s.kind.ParameterChange? && !s.parametersOk then Some(BadParameters)
    else if s.proposer in g.lastProposal && g.height < WrapAdd(g.lastProposal[s.proposer], PROPOSAL_COOLDOWN_BLOCKS)
    then Some(Cooldown)
    else if |ActiveOf(g, s.proposer)| >= MAX_ACTIVE_PROPOSALS then Some(TooManyActive)
    else None
  }

  function NewProposal(g: Gov, s: Submission): Proposal {
    var discussionEnd := WrapAdd(g.height, DISCUSSION_PERIOD_BLOCKS);
    Proposal(s.proposer, s.kind, Discussion, g.height, discussionEnd, WrapAdd(discussionEnd, VOTING_PERIOD_BLOCKS), s.deposit,
             None, if g.height in g.snapshots then Some(g.snapshots[g.height]) else None, [], [])
  }

  function Submit(g: Gov, s: Submission): (Gov, Reply<nat>) {
    var error := SubmitError(g, s);
    if error.Some? then (g, Denied(error.value)) else
      (g.(proposals := g.proposals[g.nextId := NewProposal(g, s)], votes := g.votes[g.nextId := []],
          nextId := g.nextId + 1, lastProposal := g.lastProposal[s.proposer := g.height]),
       Done(g.nextId))
  }

  // ---------------------------------------------------------------- voting

  predicate HasVoted(votes: seq<Vote>, voter: string) {
    exists i :: 0 <= i < |votes| && votes[i].voter == voter
  }

  /** The claimed power, capped by the snapshot if the proposal has one. */
  function CappedPower(p: Proposal, voter: string, power: u64): u64 {
    if p.snapshot.None? then power
    else if voter in p.snapshot.value then Min(power, p.snapshot.value[voter])
    else 0
  }

  function CastVote(g: Gov, id: nat, voter: string, option: VoteOption, power: u64): (Gov, Reply<()>) {
    if !ValidAddress(voter) then (g, Denied(BadAddress))
    else if id !in g.proposals then (g, Denied(ProposalNotFound))
    else
      var p := g.proposals[id];
      if p.status != Voting then (g, Denied(WrongStatus))
      else if g.height > p.votingEnd then (g, Denied(VotingEnded))
      else if CappedPower(p, voter, power) == 0 then (g, Denied(NoPower))
      else if id !in g.votes then (g, Denied(ProposalNotFound))
      else if HasVoted(g.votes[id], voter) then (g, Denied(AlreadyVoted))
      else (g.(votes := g.votes[id := g.votes[id] + [Vote(voter, option, CappedPower(p, voter, power))]]), Done(()))
  }

  /** Every proposal whose discussion is over enters voting. */
  function Advanced(p: Proposal, height: u64): Proposal {
    if p.status == Discussion && height >= p.discussionEnd then p.(status := Voting) else p
  }

  function AdvancePhases(g: Gov): Gov {
    g.(proposals := map id | id in g.proposals :: Advanced(g.proposals[id], g.height))
  }

  // ---------------------------------------------------------------- tally

  /** The power behind one option, without any word size. */
  function PowerFor(votes: seq<Vote>, option: VoteOption): nat {
    if votes == [] then 0 else
      PowerFor(votes[..|votes| - 1], option) + if votes[|votes| - 1].option == option then votes[|votes| - 1].power else 0
  }

  /** A vote with veto counts as a no as well. All counters are 64-bit words. */
  function TallyOf(votes: seq<Vote>, bonded: u64): Tally {
    var yes: u64 := Word(PowerFor(votes, Yes));
    var no: u64 := Word(PowerFor(votes, No) + PowerFor(votes, NoWithVeto));
    var abstain: u64 := Word(PowerFor(votes, Abstain));
    var veto: u64 := Word(PowerFor(votes, NoWithVeto));
    Judge(yes, no, abstain, veto, bonded)
  }

  function Judge(yes: u64, no: u64, abstain: u64, veto: u64, bonded: u64): Tally {
    var total := WrapAdd(WrapAdd(yes, no), abstain);
    var quorum := bonded > 0 && total * 1000 >= QUORUM_PERMILLE * bonded;
    var vetoed := total > 0 && veto * 1000 > VETO_PERMILLE * total;
    var passed := quorum && !vetoed && WrapAdd(yes, no) > 0 && 2 * yes > WrapAdd(yes, no);
    Tally(yes, no, abstain, veto, total, bonded, quorum, passed, vetoed)
  }

  function Outcome(t: Tally): Status {
    if t.vetoed then Failed else if t.passed then Passed else Rejected
  }

  function Tallied(p: Proposal, votes: seq<Vote>, bonded: u64): Proposal {
    p.(tally := Some(TallyOf(votes, bonded)), status := Outcome(TallyOf(votes, bonded)))
  }

  function TallyProposal(g: Gov, id: nat): (Gov, Reply<Tally>) {
    if id !in g.proposals then (g, Denied(ProposalNotFound)) else
      var p := g.proposals[id];
      if p.status != Voting then (g, Denied(WrongStatus))
      else if g.height <= p.votingEnd then (g, Denied(VotingNotEnded))
      else if id !in g.votes then (g, Denied(ProposalNotFound))
      else
        (g.(proposals := g.proposals[id := Tallied(p, g.votes[id], g.bonded)]), Done(TallyOf(g.votes[id], g.bonded)))
  }

  // ---------------------------------------------------------------- signatures, pause, execution

  function Signed(p: Proposal, validator: string): Proposal {
    var signers := p.signers + [validator];
    p.(signers := signers, status := if |signers| >= UPGRADE_SIGNATURES then Executed else p.status)
  }

  /** The fifth distinct signature executes an upgrade. */
  function SignUpgrade(g: Gov, id: nat, validator: string): (Gov, Reply<nat>) {
    if id !in g.proposals then (g, Denied(ProposalNotFound)) else
      var p := g.proposals[id];
      if !p.kind.SoftwareUpgrade? then (g, Denied(NotAnUpgrade))
      else if p.status != Passed then (g, Denied(WrongStatus))
      else if validator in p.signers then (g, Denied(AlreadySigned))
      else (g.(proposals := g.proposals[id := Signed(p, validator)]), Done(|p.signers| + 1))
  }

  /** The double nearest to 0.67, in units of 2^-53: a little more than 67 hundredths. */
  const PAUSE_FRACTION: nat := 6_034_823_500_676_465

  /** The count times 0.67 in double precision, rounded up. */
  function PauseThreshold(validators: nat): nat {
    (Rounded(Rounded(validators) * PAUSE_FRACTION) + PRECISION - 1) / PRECISION
  }

  /** As long as rounding errors stay below a hundredth. */
  const MANY_VALIDATORS: nat := 0x4000_0000_0000

  /** In units of 2^-53, less than a hundredth away from 67 percent. */
  predicate IsNear(v: nat, r: nat) {
    100 * r < PAUSE_PERCENT * PRECISION * v + PRECISION && PAUSE_PERCENT * PRECISION * v < 100 * r + PRECISION
  }

  lemma RoundingIsSmall(v: nat, r: nat)
    requires v < MANY_VALIDATORS && r == Rounded(v * PAUSE_FRACTION)
    ensures IsNear(v, r)
  {
    var x := v * PAUSE_FRACTION;
    assert 100 * x == PAUSE_PERCENT * PRECISION * v + 36 * v;
    assert x <= PRECISION * v;
    assert PRECISION * x - v * PRECISION <= PRECISION * r <= PRECISION * x + v * PRECISION;
    assert x - v <= r <= x + v;
  }

  lemma CeilingOfNearby(v: nat, r: nat, t: nat)
    requires IsNear(v, r)
    requires t == (r + PRECISION - 1) / PRECISION
    ensures 100 * t >= PAUSE_PERCENT * v && 100 * t <= PAUSE_PERCENT * v + 100
  {
    assert PRECISION * t >= r && PRECISION * t <= r + PRECISION - 1;
  }

  /**
    The threshold is never below 67 percent of the validators. It is the least such number of votes unless
    the validators come in hundreds; then rounding may ask for one vote more.
   */
  lemma PauseTakesTwoThirds(validators: nat, votes: nat)
    requires validators < MANY_VALIDATORS
    ensures votes >= PauseThreshold(validators) ==> 100 * votes >= PAUSE_PERCENT * validators
    ensures 100 * votes >= PAUSE_PERCENT * validators && validators % 100 != 0 ==> votes >= PauseThreshold(validators)
    ensures 100 * votes >= PAUSE_PERCENT * validators ==> votes + 1 >= PauseThreshold(validators)
  {
    var r := Rounded(validators * PAUSE_FRACTION);
    RoundingIsSmall(validators, r);
    CeilingOfNearby(validators, r, PauseThreshold(validators));
    LeastOrOneMore(validators, PauseThreshold(validators), votes);
  }

  lemma LeastOrOneMore(v: nat, t: nat, votes: nat)
    requires 100 * t >= PAUSE_PERCENT * v && 100 * t <= PAUSE_PERCENT * v + 100
    ensures votes >= t ==> 100 * votes >= PAUSE_PERCENT * v
    ensures 100 * votes >= PAUSE_PERCENT * v ==> votes + 1 >= t
    ensures 100 * votes >= PAUSE_PERCENT * v && v % 100 != 0 ==> votes >= t
  {
    if 100 * votes >= PAUSE_PERCENT * v && votes < t {
      assert 100 * votes == PAUSE_PERCENT * v;
    }
  }

  /** And it does: of 1500 validators 1005 are 67 percent, and 1006 are asked for. */
  lemma RoundingAsksForMore()
    ensures PauseThreshold(1500) == 1006 && 100 * 1005 == PAUSE_PERCENT * 1500
  {
    assert 1500 * PAUSE_FRACTION == 9_052_235_251_014_697_500;
    assert Spacing(8_840_073_487_319_040) == 1;
    assert Spacing(17_680_146_974_638_081) == 2;
    assert Spacing(35_360_293_949_276_162) == 4;
    assert Spacing(70_720_587_898_552_324) == 8;
    assert Spacing(141_441_175_797_104_648) == 16;
    assert Spacing(282_882_351_594_209_296) == 32;
    assert Spacing(565_764_703_188_418_593) == 64;
    assert Spacing(1_131_529_406_376_837_187) == 128;
    assert Spacing(2_263_058_812_753_674_375) == 256;
    assert Spacing(4_526_117_625_507_348_750) == 512;
    assert Spacing(9_052_235_251_014_697_500) == 1_024;
    assert NearestMultiple(9_052_235_251_014_697_500, 1_024) == 9_052_235_251_014_697_984;
  }

  function PauseVoted(p: Proposal, validator: string, validators: nat): Proposal {
    var pauseVotes := p.pauseVotes + [validator];
    p.(pauseVotes := pauseVotes, status := if |pauseVotes| >= PauseThreshold(validators) then Paused else p.status)
  }

  function PauseVote(g: Gov, id: nat, validator: string, validators: nat): (Gov, Reply<bool>) {
    if id !in g.proposals then (g, Denied(ProposalNotFound)) else
      var p := g.proposals[id];
      if p.status != Voting && p.status != Passed then (g, Denied(WrongStatus))
      else if validator in p.pauseVotes then (g, Denied(AlreadyVoted))
      else
        (g.(proposals := g.proposals[id := PauseVoted(p, validator, validators)]),
         Done(|p.pauseVotes| + 1 >= PauseThreshold(validators)))
  }

  /** Only parameter changes and slashing do anything that can fail; executing the other kinds changes the status alone. */
  predicate CanFail(kind: Kind) {
    kind.ParameterChange? || kind.SlashingProposal?
  }

  /** Any passed proposal can be executed, upgrades included; `effectsOk` says whether its effects, if any, went through. */
  function Execute(g: Gov, id: nat, effectsOk: bool): (Gov, Reply<()>) {
    if id !in g.proposals then (g, Denied(ProposalNotFound))
    else if g.proposals[id].status != Passed then (g, Denied(WrongStatus))
    else if CanFail(g.proposals[id].kind) && !effectsOk then (g, Denied(EffectsFailed))
    else (g.(proposals := g.proposals[id := g.proposals[id].(status := Executed)]), Done(()))
  }

  // ---------------------------------------------------------------- outside updates

  function SetSnapshot(g: Gov, height: u64, snapshot: map<string, u64>): Gov {
    var oldest := SaturatingSub(height, VOTING_PERIOD_BLOCKS);
    var snapshots := g.snapshots[height := snapshot];
    g.(snapshots := map h | h in snapshots && h >= oldest :: snapshots[h])
  }

  // ---------------------------------------------------------------- runs

  datatype GovEvent =
    | SubmitEvent(submission: Submission)
    | VoteEvent(id: nat, voter: string, option: VoteOption, power: u64)
    | AdvanceEvent
    | TallyEvent(id: nat)
    | SignEvent(id: nat, validator: string)
    | PauseEvent(id: nat, validator: string, validators: nat)
    | ExecuteEvent(id: nat, effectsOk: bool)
    | HeightEvent(height: u64)
    | BondedEvent(bonded: u64)
    | SnapshotEvent(height: u64, snapshot: map<string, u64>)

  function GovStep(g: Gov, e: GovEvent): Gov {
    match e
    case SubmitEvent(submission) => Submit(g, submission).0
    case VoteEvent(id, voter, option, power) => CastVote(g, id, voter, option, power).0
    case AdvanceEvent => AdvancePhases(g)
    case TallyEvent(id) => TallyProposal(g, id).0
    case SignEvent(id, validator) => SignUpgrade(g, id, validator).0
    case PauseEvent(id, validator, validators) => PauseVote(g, id, validator, validators).0
    case ExecuteEvent(id, effectsOk) => Execute(g, id, effectsOk).0
    case HeightEvent(height) => g.(height := height)
    case BondedEvent(bonded) => g.(bonded := bonded)
    case SnapshotEvent(height, snapshot) => SetSnapshot(g, height, snapshot)
  }

  function GovRun(g: Gov, events: seq<GovEvent>): Gov {
    if events == [] then g else GovStep(GovRun(g, events[..|events| - 1]), events[|events| - 1])
  }
}
