/** The consensus engine as the node runs it; every method is proved to take the step the specification describes. */
module ConsensusEngine {
  import opened Common
  import opened Sums
  import opened Ordering
  import opened Consensus
  import opened Quorum
  import opened Proposer

  class Engine {
    const valid: SignatureCheck
    const verifySignatures: bool
    /** The digest of height, stake total and previous block hash, as a number. */
    const heightSeed: (u64, u64, Hash) -> u64
    const minStake: u64
    var validators: map<string, Validator>
    var totalStake: u64
    var prevBlockHash: Hash
    var pendingSignatures: map<u64, SignatureSet>
    var heightSignatures: map<u64, map<string, Hash>>
    var slashingEvidence: seq<Evidence>

    ghost function State(): ConsensusState
      reads this
    {
      ConsensusState(validators, minStake, totalStake, pendingSignatures, heightSignatures, slashingEvidence)
    }

    constructor (valid: SignatureCheck, verifySignatures: bool, heightSeed: (u64, u64, Hash) -> u64, zeroHash: Hash)
      ensures State() == Genesis && prevBlockHash == zeroHash
      ensures this.valid == valid && this.verifySignatures == verifySignatures && this.heightSeed == heightSeed
    {
      this.valid, this.verifySignatures, this.heightSeed := valid, verifySignatures, heightSeed;
      minStake, prevBlockHash := MIN_STAKE, zeroHash;
      validators, totalStake := map[], 0;
      pendingSignatures, heightSignatures, slashingEvidence := map[], map[], [];
    }

    // ---------------------------------------------------------------- stake

    method AddValidator(address: string, stake: u64, pubkey: string) returns (r: Outcome<()>)
      modifies this`validators, this`totalStake
      ensures (State(), r) == Consensus.AddValidator(old(State()), address, stake, pubkey)
    {
      if stake < minStake {
        return Err(BelowMinimum);
      }
      if address in validators {
        return Err(AlreadyExists);
      }
      totalStake := WrapAdd(totalStake, stake);
      validators := validators[address := Validator(pubkey, stake, stake, true, 0, 0, 0, false, 0, 0)];
      return Ok(());
    }

    method RemoveValidator(address: string) returns (r: Outcome<()>)
      modifies this`validators, this`totalStake
      ensures (State(), r) == Consensus.RemoveValidator(old(State()), address)
    {
      if address !in validators {
        return Err(NotFound);
      }
      validators := validators[address := validators[address].(isActive := false)];
      totalStake := WrapSub(totalStake, validators[address].stake);
      return Ok(());
    }

    method UpdateStake(address: string, newStake: u64) returns (r: Outcome<()>)
      modifies this`validators, this`totalStake
      ensures (State(), r) == Consensus.UpdateStake(old(State()), address, newStake)
    {
      if newStake < minStake {
        return Err(BelowMinimum);
      }
      if address !in validators {
        return Err(NotFound);
      }
      var oldStake := validators[address].stake;
      totalStake := WrapAdd(WrapSub(totalStake, oldStake), newStake);
      validators := validators[address := validators[address].(stake := newStake, votingPower := newStake)];
      return Ok(());
    }

    method RecordProposal(address: string) returns (r: Outcome<()>)
      modifies this`validators
      ensures (State(), r) == Consensus.RecordProposal(old(State()), address)
    {
      if address !in validators {
        return Err(NotFound);
      }
      var v := validators[address];
      validators := validators[address := v.(blocksProposed := WrapAdd(v.blocksProposed, 1))];
      return Ok(());
    }

    method RecordSignature(address: string) returns (r: Outcome<()>)
      modifies this`validators
      ensures (State(), r) == Consensus.RecordSignature(old(State()), address)
    {
      if address !in validators {
        return Err(NotFound);
      }
      var v := validators[address];
      v := v.(blocksSigned := WrapAdd(v.blocksSigned, 1));
      v := v.(missedBlocks := 0);
      validators := validators[address := v];
      return Ok(());
    }

    method RecordMissedBlock(address: string, currentHeight: u64) returns (r: Outcome<Option<u64>>)
      modifies this`validators, this`totalStake, this`slashingEvidence
      ensures (State(), r) == Consensus.RecordMissedBlock(old(State()), address, currentHeight)
    {
      if address !in validators {
        return Err(NotFound);
      }
      var v := validators[address];
      if v.isJailed {
        return Ok(None);
      }
      var newMissed := WrapAdd(v.missedBlocks, 1);
      validators := validators[address := v.(missedBlocks := newMissed)];
      if newMissed >= MAX_MISSED_BLOCKS {
        var slashed := ApplySlash(address, currentHeight, Charge(Downtime, None, Some(newMissed)));
        assert slashed.Ok?;
        return Ok(Some(slashed.value));
      }
      return Ok(None);
    }

    method RecordBlockVote(address: string, voteHeight: u64, blockHash: Hash, currentHeight: u64)
      returns (r: Outcome<Option<u64>>)
      modifies this`validators, this`totalStake, this`slashingEvidence, this`heightSignatures
      ensures (State(), r) == Consensus.RecordBlockVote(old(State()), address, voteHeight, blockHash, currentHeight)
    {
      if voteHeight !in heightSignatures {
        heightSignatures := heightSignatures[voteHeight := map[]];
      }
      var cast := heightSignatures[voteHeight];
      if address !in cast {
        heightSignatures := heightSignatures[voteHeight := cast[address := blockHash]];
        assert heightSignatures == old(heightSignatures)[voteHeight := cast[address := blockHash]];
        return Ok(None);
      }
      assert heightSignatures == old(heightSignatures)[voteHeight := cast];
      if cast[address] == blockHash {
        return Ok(None);
      }
      var slashed := ApplySlash(address, currentHeight, Charge(DoubleSign, Some((cast[address], blockHash)), None));
      return if slashed.Ok? then Ok(Some(slashed.value)) else Err(slashed.error);
    }

    /** Deduct, take the whole former stake off the total, jail, record the evidence. */
    method ApplySlash(address: string, currentHeight: u64, charge: Charge) returns (r: Outcome<u64>)
      modifies this`validators, this`totalStake, this`slashingEvidence
      ensures (State(), r) == Slash(old(State()), address, currentHeight, charge)
    {
      if address !in validators {
        return Err(NotFound);
      }
      var v := validators[address];
      var amount := SlashAmount(v.stake, ChargePercent(charge.offense));
      v := v.(stake := SaturatingSub(v.stake, amount));
      v := v.(votingPower := v.stake, totalSlashed := WrapAdd(v.totalSlashed, amount));
      totalStake := SaturatingSub(totalStake, WrapAdd(amount, v.stake));
      v := v.(isJailed := true, isActive := false);
      v := v.(jailUntil := WrapAdd(currentHeight, JAIL_DURATION_BLOCKS), missedBlocks := 0);
      validators := validators[address := v];
      slashingEvidence := slashingEvidence
        + [Evidence(address, charge.offense, currentHeight, amount, charge.hashes, charge.missedBlocks)];
      return Ok(amount);
    }

    method UnjailValidator(address: string, currentHeight: u64) returns (r: Outcome<()>)
      modifies this`validators, this`totalStake
      ensures (State(), r) == Unjail(old(State()), address, currentHeight)
    {
      if address !in validators {
        return Err(NotFound);
      }
      var v := validators[address];
      if !v.isJailed {
        return Err(NotJailed);
      }
      if currentHeight < v.jailUntil {
        return Err(StillJailed);
      }
      if v.stake < minStake {
        return Err(BelowMinimum);
      }
      validators := validators[address := v.(isJailed := false, isActive := true)];
      totalStake := WrapAdd(totalStake, v.stake);
      return Ok(());
    }

    // ---------------------------------------------------------------- votes

    method RequiredVotingPower() returns (required: u64)
      ensures required == RequiredPower(TotalPower(validators))
    {
      var activePower: u64 := 0;
      var rest := validators.Keys;
      ghost var done: set<string> := {};
      ghost var powers := Powers(validators);
      NobodyWeighsNothing(powers);
      while rest != {}
        invariant done !! rest && done + rest == validators.Keys
        invariant activePower == Word(SumOver(powers, done))
        decreases |rest|
      {
        var a :| a in rest;
        AddPower(powers, done, a, activePower);
        if validators[a].isActive && !validators[a].isJailed {
          activePower := WrapAdd(activePower, validators[a].votingPower);
        }
        rest, done := rest - {a}, done + {a};
      }
      SumOverAll(powers, done);
      required := WrapAdd(Word(activePower * 2) / 3, 1);
    }

    method CheckConsensus(height: u64) returns (reached: bool)
      ensures reached <==> Quorum.CheckConsensus(State(), height)
    {
      if height !in pendingSignatures {
        return false;
      }
      var required := RequiredVotingPower();
      return pendingSignatures[height].powerCollected >= required;
    }

    method CollectSignature(height: u64, blockHash: Hash, address: string, signature: Signature) returns (r: Outcome<bool>)
      modifies this`pendingSignatures
      ensures (State(), r) == Quorum.CollectSignature(valid, verifySignatures, old(State()), height, blockHash, address, signature)
    {
      if address !in validators {
        return Err(NotFound);
      }
      var v := validators[address];
      if !v.isActive || v.isJailed {
        return Err(NotActive);
      }
      if verifySignatures && !valid(v.pubkey, blockHash, signature) {
        return Err(BadSignature);
      }
      if height !in pendingSignatures {
        pendingSignatures := pendingSignatures[height := SignatureSet(blockHash, map[], 0)];
      }
      var found := pendingSignatures[height];
      if found.blockHash != blockHash {
        return Ok(false);
      }
      if address !in found.signatures {
        found := found.(signatures := found.signatures[address := signature]);
        found := found.(powerCollected := WrapAdd(found.powerCollected, v.votingPower));
        pendingSignatures := pendingSignatures[height := found];
      }
      assert pendingSignatures == old(pendingSignatures)[height := found];
      var reached := CheckConsensus(height);
      return Ok(reached);
    }

    method CleanupOldSignatures(currentHeight: u64, keepBlocks: u64)
      modifies this`pendingSignatures, this`heightSignatures
      ensures State() == Quorum.CleanupOldSignatures(old(State()), currentHeight, keepBlocks)
    {
      var cutoff := SaturatingSub(currentHeight, keepBlocks);
      pendingSignatures := map h | h in pendingSignatures && h > cutoff :: pendingSignatures[h];
      heightSignatures := map h | h in heightSignatures && h > cutoff :: heightSignatures[h];
    }

    // ---------------------------------------------------------------- proposer

    /** The active addresses in whatever order the map yields them. */
    method ActiveAddresses() returns (addresses: seq<string>)
      ensures multiset(addresses) == multiset(ActivePowers(validators).Keys)
    {
      addresses := [];
      var rest := validators.Keys;
      ghost var taken: set<string> := {};
      while rest != {}
        invariant rest <= validators.Keys
        invariant forall a :: a in taken <==> a in validators && a !in rest && validators[a].isActive
        invariant multiset(addresses) == multiset(taken)
        decreases |rest|
      {
        var a :| a in rest;
        if validators[a].isActive {
          AppendNew(addresses, taken, a);
          addresses, taken := addresses + [a], taken + {a};
        }
        rest := rest - {a};
      }
      assert taken == ActivePowers(validators).Keys;
    }

    /** The active addresses, sorted. */
    method Roster() returns (order: seq<string>)
      ensures IsRoster(ActivePowers(validators), order)
    {
      var addresses := ActiveAddresses();
      StringOrder();
      SortSorts(StringLe, addresses);
      order := Sort(StringLe, addresses);
    }

    /** The wrapped sum of the listed validators' power. */
    method SumPowers(order: seq<string>) returns (total: u64)
      requires IsRoster(ActivePowers(validators), order)
      ensures total == Word(MapSum(ActivePowers(validators)))
    {
      ghost var powers := ActivePowers(validators);
      total := 0;
      WalkStarts(powers, order);
      for i := 0 to |order|
        invariant total == Word(PowerUpTo(powers, order, i))
      {
        AddRosterPower(powers, order, i, total);
        total := WrapAdd(total, validators[order[i]].votingPower);
      }
      WalkEnds(powers, order);
    }

    /**
      The proposer of a height is where the walk over the one sorted roster ends for the seed's remainder,
      whatever order the map is visited in. While the powers' sum fits the word it is the one validator
      whose share covers that remainder.
     */
    method SelectProposerForHeight(height: u64) returns (r: Option<string>)
      ensures var powers := ActivePowers(validators);
              && (r.None? <==> Word(MapSum(powers)) == 0)
              && (r.Some? ==> r.value in powers)
              && (r.Some? ==> forall order :: IsRoster(powers, order) && order != [] ==>
                    r.value == Selected(powers, order, heightSeed(height, totalStake, prevBlockHash) % Word(MapSum(powers))))
              && (r.Some? && MapSum(powers) <= U64_MAX ==>
                    Chosen(powers, r.value, heightSeed(height, totalStake, prevBlockHash) % MapSum(powers)))
    {
      ghost var powers := ActivePowers(validators);
      var order := Roster();
      if order == [] {
        WalkStarts(powers, order);
        WalkEnds(powers, order);
        return None;
      }
      var total := SumPowers(order);
      if total == 0 {
        return None;
      }
      var target := heightSeed(height, totalStake, prevBlockHash) % total;
      r := WalkTo(order, target);
      RosterKeys(powers, order);
      forall other | IsRoster(powers, other) && other != [] ensures r.value == Selected(powers, other, target) {
        RosterIsUnique(powers, order, other);
      }
      if MapSum(powers) <= U64_MAX {
        SelectedIsChosen(powers, order, target);
      }
    }

    /** Add up powers until the running sum passes the target. */
    method WalkTo(order: seq<string>, target: u64) returns (r: Option<string>)
      requires IsRoster(ActivePowers(validators), order) && order != []
      ensures r == Some(Selected(ActivePowers(validators), order, target))
    {
      ghost var powers := ActivePowers(validators);
      var cumulative: u64 := 0;
      WalkStarts(powers, order);
      for i := 0 to |order|
        invariant cumulative == Word(PowerUpTo(powers, order, i))
        invariant Stop(powers, order, target, 0) == Stop(powers, order, target, i)
      {
        RosterKeys(powers, order);
        AddRosterPower(powers, order, i, cumulative);
        cumulative := WrapAdd(cumulative, validators[order[i]].votingPower);
        if cumulative > target {
          return Some(order[i]);
        }
      }
      return Some(order[0]);
    }
  }
}
