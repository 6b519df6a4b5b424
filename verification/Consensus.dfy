/**
  The validator set as a state machine: joining, leaving, restaking, missing blocks, voting twice,
  being slashed and jailed, and coming back. The class in ConsensusEngine.dfy takes exactly these steps.
 */
module Consensus {
  import opened Common

  const DOWNTIME_SLASH_PERCENT: nat := 1
  const DOUBLE_SIGN_SLASH_PERCENT: nat := 50
  const SLASH_DENOMINATOR: nat := 1000
  const MAX_MISSED_BLOCKS: nat := 100
  const JAIL_DURATION_BLOCKS: nat := 10_000
  const MIN_STAKE: u64 := 10_000_000_000_000

  type Hash = string
  type Signature = string

  datatype Validator = Validator(
    pubkey: string, stake: u64, votingPower: u64, isActive: bool, blocksProposed: u64, blocksSigned: u64,
    missedBlocks: u64, isJailed: bool, jailUntil: u64, totalSlashed: u64)

  datatype Offense = Downtime | DoubleSign

  datatype Evidence = Evidence(
    address: string, offense: Offense, height: u64, slashAmount: u64,
    hashes: Option<(Hash, Hash)>, missedBlocks: Option<u64>)

  datatype SignatureSet = SignatureSet(blockHash: Hash, signatures: map<string, Signature>, powerCollected: u64)

  datatype ConsensusState = ConsensusState(
    validators: map<string, Validator>, minStake: u64, totalStake: u64,
    pending: map<u64, SignatureSet>, votes: map<u64, map<string, Hash>>, evidence: seq<Evidence>)

  datatype ConsensusError =
    | BelowMinimum | AlreadyExists | NotFound | NotJailed | StillJailed | NotActive | BadSignature

  datatype Outcome<+T> = Ok(value: T) | Err(error: ConsensusError)

  function WithValidator(s: ConsensusState, a: string, v: Validator): ConsensusState {
    s.(validators := s.validators[a := v])
  }

  // ---------------------------------------------------------------- operations

  function AddValidator(s: ConsensusState, a: string, stake: u64, pubkey: string): (ConsensusState, Outcome<()>) {
    if stake < s.minStake then (s, Err(BelowMinimum))
    else if a in s.validators then (s, Err(AlreadyExists))
    else
      (WithValidator(s, a, Validator(pubkey, stake, stake, true, 0, 0, 0, false, 0, 0))
         .(totalStake := WrapAdd(s.totalStake, stake)), Ok(()))
  }

  function RemoveValidator(s: ConsensusState, a: string): (ConsensusState, Outcome<()>) {
    if a !in s.validators then (s, Err(NotFound)) else
      (WithValidator(s, a, s.validators[a].(isActive := false))
         .(totalStake := WrapSub(s.totalStake, s.validators[a].stake)), Ok(()))
  }

  function UpdateStake(s: ConsensusState, a: string, stake: u64): (ConsensusState, Outcome<()>) {
    if stake < s.minStake then (s, Err(BelowMinimum))
    else if a !in s.validators then (s, Err(NotFound))
    else
      (WithValidator(s, a, s.validators[a].(stake := stake, votingPower := stake))
         .(totalStake := WrapAdd(WrapSub(s.totalStake, s.validators[a].stake), stake)), Ok(()))
  }

  function RecordProposal(s: ConsensusState, a: string): (ConsensusState, Outcome<()>) {
    if a !in s.validators then (s, Err(NotFound)) else
      (WithValidator(s, a, s.validators[a].(blocksProposed := WrapAdd(s.validators[a].blocksProposed, 1))), Ok(()))
  }

  function RecordSignature(s: ConsensusState, a: string): (ConsensusState, Outcome<()>) {
    if a !in s.validators then (s, Err(NotFound)) else
      (WithValidator(s, a, s.validators[a].(blocksSigned := WrapAdd(s.validators[a].blocksSigned, 1), missedBlocks := 0)), Ok(()))
  }

  /** The slashed share of a stake; the multiplication wraps. */
  function SlashAmount(stake: u64, percent: nat): (amount: u64)
    requires percent <= SLASH_DENOMINATOR
    ensures amount <= stake
    ensures stake * percent <= U64_MAX ==> amount == stake * percent / SLASH_DENOMINATOR
  {
    var word := Word(stake * percent);
    assert word <= stake * percent <= stake * SLASH_DENOMINATOR;
    word / SLASH_DENOMINATOR
  }

  datatype Charge = Charge(offense: Offense, hashes: Option<(Hash, Hash)>, missedBlocks: Option<u64>)

  function ChargePercent(offense: Offense): (percent: nat)
    ensures percent <= SLASH_DENOMINATOR
  {
    match offense
    case Downtime => DOWNTIME_SLASH_PERCENT
    case DoubleSign => DOUBLE_SIGN_SLASH_PERCENT
  }

  function Slashed(v: Validator, amount: u64, height: u64): Validator
    requires amount <= v.stake
  {
    v.(stake := v.stake - amount, votingPower := v.stake - amount, totalSlashed := WrapAdd(v.totalSlashed, amount),
       isJailed := true, isActive := false, jailUntil := WrapAdd(height, JAIL_DURATION_BLOCKS), missedBlocks := 0)
  }

  /** Slash, jail, record the evidence; the whole former stake leaves the total. */
  function Slash(s: ConsensusState, a: string, height: u64, charge: Charge): (ConsensusState, Outcome<u64>) {
    if a !in s.validators then (s, Err(NotFound)) else
      var v := s.validators[a];
      var amount := SlashAmount(v.stake, ChargePercent(charge.offense));
      (WithValidator(s, a, Slashed(v, amount, height))
         .(totalStake := SaturatingSub(s.totalStake, v.stake),
           evidence := s.evidence + [Evidence(a, charge.offense, height, amount, charge.hashes, charge.missedBlocks)]),
       Ok(amount))
  }

  function RecordMissedBlock(s: ConsensusState, a: string, height: u64): (ConsensusState, Outcome<Option<u64>>) {
    if a !in s.validators then (s, Err(NotFound))
    else if s.validators[a].isJailed then (s, Ok(None))
    else
      var missed := WrapAdd(s.validators[a].missedBlocks, 1);
      var s1 := WithValidator(s, a, s.validators[a].(missedBlocks := missed));
      if missed < MAX_MISSED_BLOCKS then (s1, Ok(None)) else
        var (s2, r) := Slash(s1, a, height, Charge(Downtime, None, Some(missed)));
        (s2, if r.Ok? then Ok(Some(r.value)) else Err(r.error))
  }

  function VotesAt(s: ConsensusState, height: u64): map<string, Hash> {
    if height in s.votes then s.votes[height] else map[]
  }

  /** The first vote of a validator at a height is remembered; a later one for another hash is a double sign. */
  function RecordBlockVote(s: ConsensusState, a: string, voteHeight: u64, hash: Hash, height: u64): (ConsensusState, Outcome<Option<u64>>) {
    var cast := VotesAt(s, voteHeight);
    var s1 := s.(votes := s.votes[voteHeight := if a in cast then cast else cast[a := hash]]);
    if a in cast && cast[a] != hash then
      var (s2, r) := Slash(s1, a, height, Charge(DoubleSign, Some((cast[a], hash)), None));
      (s2, if r.Ok? then Ok(Some(r.value)) else Err(r.error))
    else (s1, Ok(None))
  }

  function Unjail(s: ConsensusState, a: string, height: u64): (ConsensusState, Outcome<()>) {
    if a !in s.validators then (s, Err(NotFound)) else
      var v := s.validators[a];
      if !v.isJailed then (s, Err(NotJailed))
      else if height < v.jailUntil then (s, Err(StillJailed))
      else if v.stake < s.minStake then (s, Err(BelowMinimum))
      else
        (WithValidator(s, a, v.(isJailed := false, isActive := true)).(totalStake := WrapAdd(s.totalStake, v.stake)), Ok(()))
  }

  // ---------------------------------------------------------------- runs

  datatype StakeEvent =
    | Join(a: string, stake: u64, pubkey: string)
    | Leave(a: string)
    | Restake(a: string, stake: u64)
    | Propose(a: string)
    | Sign(a: string)
    | Miss(a: string, height: u64)
    | Vote(a: string, voteHeight: u64, hash: Hash, height: u64)
    | Release(a: string, height: u64)

  function StakeStep(s: ConsensusState, e: StakeEvent): ConsensusState {
    match e
    case Join(a, stake, pubkey) => AddValidator(s, a, stake, pubkey).0
    case Leave(a) => RemoveValidator(s, a).0
    case Restake(a, stake) => UpdateStake(s, a, stake).0
    case Propose(a) => RecordProposal(s, a).0
    case Sign(a) => RecordSignature(s, a).0
    case Miss(a, height) => RecordMissedBlock(s, a, height).0
    case Vote(a, voteHeight, hash, height) => RecordBlockVote(s, a, voteHeight, hash, height).0
    case Release(a, height) => Unjail(s, a, height).0
  }

  function StakeRun(s: ConsensusState, events: seq<StakeEvent>): ConsensusState {
    if events == [] then s else StakeStep(StakeRun(s, events[..|events| - 1]), events[|events| - 1])
  }

  const Genesis: ConsensusState := ConsensusState(map[], MIN_STAKE, 0, map[], map[], [])

  // ---------------------------------------------------------------- what every run keeps

  /** Everything ever slashed from one validator. */
  ghost function SlashedIn(evidence: seq<Evidence>, a: string): nat {
    if evidence == [] then 0 else
      var last := evidence[|evidence| - 1];
      SlashedIn(evidence[..|evidence| - 1], a) + if last.address == a then last.slashAmount else 0
  }

  predicate GoodValidator(v: Validator, minStake: u64) {
    && v.votingPower == v.stake
    && v.missedBlocks < MAX_MISSED_BLOCKS
    && (v.isActive ==> !v.isJailed && v.stake >= minStake)
  }

  /** The evidence list accounts for every validator's slash counter, up to the counter's word size. */
  ghost predicate EvidenceMatches(s: ConsensusState) {
    && (forall a :: a in s.validators ==> s.validators[a].totalSlashed == Word(SlashedIn(s.evidence, a)))
    && (forall a :: a !in s.validators ==> SlashedIn(s.evidence, a) == 0)
  }

  ghost predicate WellKept(s: ConsensusState) {
    && (forall a :: a in s.validators ==> GoodValidator(s.validators[a], s.minStake))
    && EvidenceMatches(s)
  }

  /** Replacing a validator by a good one that was slashed as much. */
  lemma ReplaceKeeps(s: ConsensusState, s': ConsensusState, a: string, v: Validator)
    requires WellKept(s) && GoodValidator(v, s.minStake)
    requires s'.validators == s.validators[a := v] && s'.evidence == s.evidence && s'.minStake == s.minStake
    requires v.totalSlashed == if a in s.validators then s.validators[a].totalSlashed else 0
    ensures WellKept(s')
  {
  }

  lemma SlashKeeps(s: ConsensusState, a: string, height: u64, charge: Charge)
    requires WellKept(s) && a in s.validators
    ensures WellKept(Slash(s, a, height, charge).0)
  {
    var s' := Slash(s, a, height, charge).0;
    var entry := s'.evidence[|s.evidence|];
    assert s'.evidence[..|s.evidence|] == s.evidence;
    assert forall b :: SlashedIn(s'.evidence, b) == SlashedIn(s.evidence, b) + if b == a then entry.slashAmount else 0;
    AddToWord(SlashedIn(s.evidence, a), entry.slashAmount);
  }

  /** The slash resets the missed-block counter, so it hides the increment that triggered it. */
  lemma MissedThenSlashed(s: ConsensusState, a: string, height: u64)
    requires a in s.validators && !s.validators[a].isJailed && s.validators[a].missedBlocks == MAX_MISSED_BLOCKS - 1
    ensures RecordMissedBlock(s, a, height).0 == Slash(s, a, height, Charge(Downtime, None, Some(MAX_MISSED_BLOCKS))).0
  {
  }

  lemma MissKeeps(s: ConsensusState, a: string, height: u64)
    requires WellKept(s)
    ensures WellKept(RecordMissedBlock(s, a, height).0)
  {
    if a in s.validators && !s.validators[a].isJailed {
      var v := s.validators[a];
      if v.missedBlocks == MAX_MISSED_BLOCKS - 1 {
        MissedThenSlashed(s, a, height);
        SlashKeeps(s, a, height, Charge(Downtime, None, Some(MAX_MISSED_BLOCKS)));
      } else {
        ReplaceKeeps(s, RecordMissedBlock(s, a, height).0, a, v.(missedBlocks := v.missedBlocks + 1));
      }
    }
  }

  lemma VoteKeeps(s: ConsensusState, a: string, voteHeight: u64, hash: Hash, height: u64)
    requires WellKept(s)
    ensures WellKept(RecordBlockVote(s, a, voteHeight, hash, height).0)
  {
    var cast := VotesAt(s, voteHeight);
    var s1 := s.(votes := s.votes[voteHeight := if a in cast then cast else cast[a := hash]]);
    assert WellKept(s1);
    if a in cast && cast[a] != hash && a in s.validators {
      SlashKeeps(s1, a, height, Charge(DoubleSign, Some((cast[a], hash)), None));
    }
  }

  /** No event of any kind breaks the record of any validator, whoever it hits. */
  lemma StepIsWellKept(s: ConsensusState, e: StakeEvent)
    requires WellKept(s)
    ensures WellKept(StakeStep(s, e)) && StakeStep(s, e).minStake == s.minStake
  {
    match e
    case Miss(a, height) => MissKeeps(s, a, height);
    case Vote(a, voteHeight, hash, height) => VoteKeeps(s, a, voteHeight, hash, height);
    case _ =>
      var s' := StakeStep(s, e);
      if s' != s {
        ReplaceKeeps(s, s', e.a, s'.validators[e.a]);
      }
  }

  lemma {:induction false} RunIsWellKept(events: seq<StakeEvent>)
    ensures WellKept(StakeRun(Genesis, events)) && StakeRun(Genesis, events).minStake == MIN_STAKE
  {
    if events != [] {
      RunIsWellKept(events[..|events| - 1]);
      StepIsWellKept(StakeRun(Genesis, events[..|events| - 1]), events[|events| - 1]);
    }
  }
}
