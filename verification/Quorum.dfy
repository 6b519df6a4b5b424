/**
  Weighted quorums: how much power a block needs, how signatures for one height are collected, and why
  two engines cannot settle on different blocks unless a third of the power signs twice.
 */
module Quorum {
  import opened Common
  import opened Sums
  import opened Consensus

  /** Ed25519 over a block hash, uninterpreted; malformed keys and signatures are not accepted. */
  type SignatureCheck = (string, Hash, Signature) -> bool

  /** The power of every validator that may sign. */
  function Powers(vs: map<string, Validator>): map<string, nat> {
    map a | a in vs && vs[a].isActive && !vs[a].isJailed :: vs[a].votingPower
  }

  ghost function TotalPower(vs: map<string, Validator>): nat {
    MapSum(Powers(vs))
  }

  /** Two thirds of the total, plus one, on 64-bit words: the sum and the doubling both wrap. */
  function RequiredPower(total: nat): (required: u64)
    ensures total <= U64_MAX / 2 ==> required == 2 * total / 3 + 1
  {
    Word(Word(total) * 2) / 3 + 1
  }

  // ---------------------------------------------------------------- collecting

  ghost predicate CheckConsensus(s: ConsensusState, height: u64) {
    height in s.pending && s.pending[height].powerCollected >= RequiredPower(TotalPower(s.validators))
  }

  predicate Accepts(valid: SignatureCheck, verify: bool, vs: map<string, Validator>, a: string, hash: Hash, sig: Signature) {
    a in Powers(vs) && (verify ==> valid(vs[a].pubkey, hash, sig))
  }

  function SetAt(s: ConsensusState, height: u64, hash: Hash): SignatureSet {
    if height in s.pending then s.pending[height] else SignatureSet(hash, map[], 0)
  }

  function AddSignature(signed: SignatureSet, a: string, sig: Signature, power: u64): SignatureSet {
    if a in signed.signatures then signed else
      signed.(signatures := signed.signatures[a := sig], powerCollected := WrapAdd(signed.powerCollected, power))
  }

  /** The first hash seen at a height stays; a signer counts once. */
  ghost function CollectSignature(valid: SignatureCheck, verify: bool, s: ConsensusState,
                                  height: u64, hash: Hash, a: string, sig: Signature): (ConsensusState, Outcome<bool>)
  {
    if a !in s.validators then (s, Err(NotFound))
    else if !s.validators[a].isActive || s.validators[a].isJailed then (s, Err(NotActive))
    else if verify && !valid(s.validators[a].pubkey, hash, sig) then (s, Err(BadSignature))
    else
      var found := SetAt(s, height, hash);
      if found.blockHash != hash then (s, Ok(false)) else
        var s' := s.(pending := s.pending[height := AddSignature(found, a, sig, s.validators[a].votingPower)]);
        (s', Ok(CheckConsensus(s', height)))
  }

  function CleanupOldSignatures(s: ConsensusState, current: u64, keep: u64): ConsensusState {
    var cutoff := SaturatingSub(current, keep);
    s.(pending := map h | h in s.pending && h > cutoff :: s.pending[h],
       votes := map h | h in s.votes && h > cutoff :: s.votes[h])
  }

  // ---------------------------------------------------------------- arithmetic of two thirds

  /** The threshold is the smallest strict two-thirds majority. */
  lemma QuorumIsTwoThirds(total: nat, power: nat)
    requires total <= U64_MAX / 2
    ensures power >= RequiredPower(total) <==> 3 * power > 2 * total
  {
  }

  ghost predicate IsQuorum(powers: map<string, nat>, signers: set<string>) {
    signers <= powers.Keys && SumOver(powers, signers) >= RequiredPower(MapSum(powers))
  }

  /** Do any two quorums share more than a third of the power? */
  ghost predicate QuorumsIntersect(powers: map<string, nat>) {
    forall s, t :: IsQuorum(powers, s) && IsQuorum(powers, t) ==> 3 * SumOver(powers, s * t) > MapSum(powers)
  }

  lemma SumOverAll(powers: map<string, nat>, s: set<string>)
    requires powers.Keys <= s
    ensures SumOver(powers, s) == MapSum(powers)
  {
    assert Restrict(powers, s) == powers;
  }

  lemma QuorumsShareAThird(powers: map<string, nat>, s: set<string>, t: set<string>)
    requires MapSum(powers) <= U64_MAX / 2 && IsQuorum(powers, s) && IsQuorum(powers, t)
    ensures 3 * SumOver(powers, s * t) > MapSum(powers)
  {
    SumOverUnion(powers, s, t);
    SumOverSubset(powers, s + t, powers.Keys);
    SumOverAll(powers, powers.Keys);
    QuorumIsTwoThirds(MapSum(powers), SumOver(powers, s));
    QuorumIsTwoThirds(MapSum(powers), SumOver(powers, t));
  }

  /** Once the doubling wraps, two disjoint signers can each reach the threshold. */
  lemma WrappedQuorumsAreDisjoint(total: nat) returns (powers: map<string, nat>)
    requires total > U64_MAX / 2
    ensures MapSum(powers) == total && !QuorumsIntersect(powers)
  {
    var required := RequiredPower(total);
    HalfReachesWrapped(total);
    powers := map["a" := required, "b" := total - required];
    SumOfTwo(required, total - required);
    SumOverOne(powers, "a");
    SumOverOne(powers, "b");
    assert IsQuorum(powers, {"a"}) && IsQuorum(powers, {"b"});
    assert {"a"} * {"b"} == {};
    assert Restrict(powers, {}) == map[];
  }

  lemma SumOfTwo(x: nat, y: nat)
    ensures MapSum(map["a" := x, "b" := y]) == x + y
  {
    var none: map<string, nat> := map[];
    MapSumUpdate(none, "a", x);
    MapSumUpdate(none["a" := x], "b", y);
    assert none["a" := x]["b" := y] == map["a" := x, "b" := y];
  }

  lemma HalfReachesWrapped(total: nat)
    requires total > U64_MAX / 2
    ensures 2 * RequiredPower(total) <= total
  {
  }

  lemma SumOverOne(powers: map<string, nat>, a: string)
    requires a in powers
    ensures SumOver(powers, {a}) == powers[a]
  {
    assert Restrict(powers, {}) == map[];
    SumOverInsert(powers, {}, a);
    assert {} + {a} == {a};
  }

  /** Quorums of every validator set with this total power intersect exactly while doubling it fits the word. */
  lemma QuorumIntersection(total: nat)
    ensures (forall powers: map<string, nat> :: MapSum(powers) == total ==> QuorumsIntersect(powers)) <==> total <= U64_MAX / 2
  {
    if total <= U64_MAX / 2 {
      forall powers: map<string, nat>, s, t | MapSum(powers) == total && IsQuorum(powers, s) && IsQuorum(powers, t)
        ensures 3 * SumOver(powers, s * t) > MapSum(powers)
      {
        QuorumsShareAThird(powers, s, t);
      }
    } else {
      var powers := WrappedQuorumsAreDisjoint(total);
    }
  }

  // ---------------------------------------------------------------- runs of one engine

  datatype VoteEvent =
    | Collect(height: u64, hash: Hash, a: string, sig: Signature)
    | Cleanup(current: u64, keep: u64)

  ghost function VoteStep(valid: SignatureCheck, verify: bool, s: ConsensusState, e: VoteEvent): ConsensusState {
    match e
    case Collect(height, hash, a, sig) => CollectSignature(valid, verify, s, height, hash, a, sig).0
    case Cleanup(current, keep) => CleanupOldSignatures(s, current, keep)
  }

  ghost function VoteRun(valid: SignatureCheck, verify: bool, s: ConsensusState, events: seq<VoteEvent>): ConsensusState {
    if events == [] then s
    else VoteStep(valid, verify, VoteRun(valid, verify, s, events[..|events| - 1]), events[|events| - 1])
  }

  /** The engine received an acceptable signature of this validator over this hash at this height. */
  ghost predicate Received(valid: SignatureCheck, verify: bool, vs: map<string, Validator>,
                           events: seq<VoteEvent>, height: u64, hash: Hash, a: string)
  {
    exists i :: 0 <= i < |events| && IsVoteOf(valid, verify, vs, events[i], height, hash, a)
  }

  predicate IsVoteOf(valid: SignatureCheck, verify: bool, vs: map<string, Validator>,
                     e: VoteEvent, height: u64, hash: Hash, a: string)
  {
    e.Collect? && e.height == height && e.hash == hash && e.a == a && Accepts(valid, verify, vs, a, hash, e.sig)
  }

  ghost function Voters(valid: SignatureCheck, verify: bool, vs: map<string, Validator>,
                        events: seq<VoteEvent>, height: u64, hash: Hash): set<string>
  {
    set a | a in Powers(vs) && Received(valid, verify, vs, events, height, hash, a)
  }

  /** The collected power is the exact power of distinct signers, each of which did sign. */
  ghost predicate Exact(valid: SignatureCheck, verify: bool, s: ConsensusState, events: seq<VoteEvent>, height: u64) {
    height in s.pending ==>
      var found := s.pending[height];
      && found.signatures.Keys <= Voters(valid, verify, s.validators, events, height, found.blockHash)
      && found.powerCollected == SumOver(Powers(s.validators), found.signatures.Keys)
  }

  function NewVoter(valid: SignatureCheck, verify: bool, vs: map<string, Validator>,
                    e: VoteEvent, height: u64, hash: Hash): set<string>
  {
    if e.Collect? && IsVoteOf(valid, verify, vs, e, height, hash, e.a) then {e.a} else {}
  }

  lemma VotersGrow(valid: SignatureCheck, verify: bool, vs: map<string, Validator>,
                   events: seq<VoteEvent>, height: u64, hash: Hash)
    requires events != []
    ensures Voters(valid, verify, vs, events, height, hash)
         == Voters(valid, verify, vs, events[..|events| - 1], height, hash)
            + NewVoter(valid, verify, vs, events[|events| - 1], height, hash)
  {
  }

  lemma SignersFit(powers: map<string, nat>, signers: set<string>, a: string)
    requires a in powers && a !in signers
    ensures SumOver(powers, signers + {a}) == SumOver(powers, signers) + powers[a] <= MapSum(powers)
  {
    SumOverInsert(powers, signers, a);
    SumOverSubset(powers, signers + {a}, powers.Keys + signers + {a});
    SumOverAll(powers, powers.Keys + signers + {a});
  }

  /** One more signature keeps the set exact. */
  lemma CollectIsExact(vs: map<string, Validator>, found: SignatureSet, a: string, sig: Signature)
    requires a in Powers(vs) && TotalPower(vs) <= U64_MAX
    requires found.powerCollected == SumOver(Powers(vs), found.signatures.Keys)
    ensures var grown := AddSignature(found, a, sig, vs[a].votingPower);
            && grown.powerCollected == SumOver(Powers(vs), grown.signatures.Keys)
            && grown.signatures.Keys == found.signatures.Keys + {a}
  {
    if a !in found.signatures {
      SignersFit(Powers(vs), found.signatures.Keys, a);
      assert found.signatures[a := sig].Keys == found.signatures.Keys + {a};
    }
  }

  ghost predicate ExactPower(vs: map<string, Validator>, found: SignatureSet) {
    found.powerCollected == SumOver(Powers(vs), found.signatures.Keys)
  }

  lemma EmptySetIsExact(vs: map<string, Validator>, hash: Hash)
    ensures ExactPower(vs, SignatureSet(hash, map[], 0))
  {
  }

  function SignersAt(s: ConsensusState, height: u64): set<string> {
    if height in s.pending then s.pending[height].signatures.Keys else {}
  }

  /** One step adds to a set at most the validator whose vote this is. */
  lemma StepGathers(valid: SignatureCheck, verify: bool, s: ConsensusState, e: VoteEvent, height: u64)
    ensures var r := VoteStep(valid, verify, s, e);
            && r.validators == s.validators
            && (height in r.pending ==>
                  && (height in s.pending ==> r.pending[height].blockHash == s.pending[height].blockHash)
                  && SignersAt(r, height) <= SignersAt(s, height)
                       + NewVoter(valid, verify, s.validators, e, height, r.pending[height].blockHash))
  {
  }

  lemma StepIsExact(valid: SignatureCheck, verify: bool, s: ConsensusState, e: VoteEvent, height: u64)
    requires TotalPower(s.validators) <= U64_MAX
    requires height in s.pending ==> ExactPower(s.validators, s.pending[height])
    ensures var r := VoteStep(valid, verify, s, e);
            height in r.pending ==> ExactPower(s.validators, r.pending[height])
  {
    var r := VoteStep(valid, verify, s, e);
    if height in r.pending && !(height in s.pending && r.pending[height] == s.pending[height]) {
      var found := SetAt(s, height, e.hash);
      EmptySetIsExact(s.validators, e.hash);
      CollectIsExact(s.validators, found, e.a, e.sig);
      assert r.pending[height] == AddSignature(found, e.a, e.sig, s.validators[e.a].votingPower);
    }
  }

  lemma {:induction false} RunIsExact(valid: SignatureCheck, verify: bool, s: ConsensusState, events: seq<VoteEvent>, height: u64)
    requires s.pending == map[] && TotalPower(s.validators) <= U64_MAX
    ensures var r := VoteRun(valid, verify, s, events);
            r.validators == s.validators && Exact(valid, verify, r, events, height)
  {
    if events != [] {
      var front, e := events[..|events| - 1], events[|events| - 1];
      RunIsExact(valid, verify, s, front, height);
      var before := VoteRun(valid, verify, s, front);
      var r := VoteStep(valid, verify, before, e);
      assert VoteRun(valid, verify, s, events) == r;
      StepGathers(valid, verify, before, e, height);
      StepIsExact(valid, verify, before, e, height);
      if height in r.pending {
        VotersGrow(valid, verify, s.validators, events, height, r.pending[height].blockHash);
      }
    }
  }

  /** Whoever signed both of two different blocks. */
  ghost function Equivocators(valid: SignatureCheck, verify: bool, vs: map<string, Validator>, height: u64,
                              events1: seq<VoteEvent>, hash1: Hash, events2: seq<VoteEvent>, hash2: Hash): set<string>
  {
    Voters(valid, verify, vs, events1, height, hash1) * Voters(valid, verify, vs, events2, height, hash2)
  }

  /** Reaching consensus means a quorum of acceptable signatures was received. */
  lemma ConsensusNeedsQuorum(valid: SignatureCheck, verify: bool, s: ConsensusState, events: seq<VoteEvent>, height: u64)
    requires s.pending == map[] && TotalPower(s.validators) <= U64_MAX
    requires CheckConsensus(VoteRun(valid, verify, s, events), height)
    ensures var hash := VoteRun(valid, verify, s, events).pending[height].blockHash;
            IsQuorum(Powers(s.validators), Voters(valid, verify, s.validators, events, height, hash))
  {
    RunIsExact(valid, verify, s, events, height);
    var found := VoteRun(valid, verify, s, events).pending[height];
    SumOverSubset(Powers(s.validators), found.signatures.Keys, Voters(valid, verify, s.validators, events, height, found.blockHash));
  }

  /**
    Agreement. Two engines with the same validators, each fed its own signatures in its own order and
    cleaning up whenever it likes, settle on the same block at a height unless more than a third of
    the power signed both blocks.
   */
  lemma Agreement(valid: SignatureCheck, verify: bool, s1: ConsensusState, events1: seq<VoteEvent>,
                  s2: ConsensusState, events2: seq<VoteEvent>, height: u64)
    requires s1.pending == s2.pending == map[] && s1.validators == s2.validators
    requires TotalPower(s1.validators) <= U64_MAX / 2
    requires CheckConsensus(VoteRun(valid, verify, s1, events1), height)
    requires CheckConsensus(VoteRun(valid, verify, s2, events2), height)
    ensures var hash1 := VoteRun(valid, verify, s1, events1).pending[height].blockHash;
            var hash2 := VoteRun(valid, verify, s2, events2).pending[height].blockHash;
            var both := Equivocators(valid, verify, s1.validators, height, events1, hash1, events2, hash2);
            hash1 == hash2 || 3 * SumOver(Powers(s1.validators), both) > TotalPower(s1.validators)
  {
    ConsensusNeedsQuorum(valid, verify, s1, events1, height);
    ConsensusNeedsQuorum(valid, verify, s2, events2, height);
    var hash1 := VoteRun(valid, verify, s1, events1).pending[height].blockHash;
    var hash2 := VoteRun(valid, verify, s2, events2).pending[height].blockHash;
    QuorumsShareAThird(Powers(s1.validators), Voters(valid, verify, s1.validators, events1, height, hash1),
                       Voters(valid, verify, s1.validators, events2, height, hash2));
  }

  const HALF_WORD: u64 := 0x4000_0000_0000_0000

  /**
    The bound on the total is needed: at exactly 2^63 the threshold drops to one unit of power, and
    two engines settle on different blocks although nobody signed twice.
   */
  lemma WrappedEnginesDisagree(valid: SignatureCheck, hash1: Hash, hash2: Hash)
    returns (s: ConsensusState, events1: seq<VoteEvent>, events2: seq<VoteEvent>)
    requires hash1 != hash2
    ensures s.pending == map[] && TotalPower(s.validators) == U64_MAX / 2 + 1
    ensures var r1, r2 := VoteRun(valid, false, s, events1), VoteRun(valid, false, s, events2);
            && CheckConsensus(r1, 0) && r1.pending[0].blockHash == hash1
            && CheckConsensus(r2, 0) && r2.pending[0].blockHash == hash2
    ensures Equivocators(valid, false, s.validators, 0, events1, hash1, events2, hash2) == {}
  {
    var v := Validator("", HALF_WORD, HALF_WORD, true, 0, 0, 0, false, 0, 0);
    s := ConsensusState(map["a" := v, "b" := v], MIN_STAKE, U64_MAX / 2 + 1, map[], map[], []);
    assert Powers(s.validators) == map["a" := HALF_WORD, "b" := HALF_WORD];
    SumOfTwo(HALF_WORD, HALF_WORD);
    events1, events2 := [Collect(0, hash1, "a", "")], [Collect(0, hash2, "b", "")];
    OneVoteSettles(valid, s, hash1, "a");
    OneVoteSettles(valid, s, hash2, "b");
  }

  lemma OneVoteSettles(valid: SignatureCheck, s: ConsensusState, hash: Hash, a: string)
    requires s.pending == map[] && TotalPower(s.validators) == U64_MAX / 2 + 1
    requires a in Powers(s.validators) && s.validators[a].votingPower > 0
    ensures var r := VoteRun(valid, false, s, [Collect(0, hash, a, "")]);
            CheckConsensus(r, 0) && r.pending[0].blockHash == hash
    ensures Voters(valid, false, s.validators, [Collect(0, hash, a, "")], 0, hash) == {a}
  {
    var events := [Collect(0, hash, a, "")];
    assert events[..0] == [];
    assert VoteRun(valid, false, s, events) == VoteStep(valid, false, s, events[0]);
    assert IsVoteOf(valid, false, s.validators, events[0], 0, hash, a);
  }

  // ---------------------------------------------------------------- what is never missed

  /** Without cleanup, nobody who signed the settled block is left out. */
  ghost predicate Complete(valid: SignatureCheck, verify: bool, s: ConsensusState, events: seq<VoteEvent>, height: u64) {
    if height in s.pending then
      Voters(valid, verify, s.validators, events, height, s.pending[height].blockHash) <= s.pending[height].signatures.Keys
    else forall hash :: Voters(valid, verify, s.validators, events, height, hash) == {}
  }

  lemma CollectMissesNobody(valid: SignatureCheck, verify: bool, s: ConsensusState, e: VoteEvent, height: u64)
    requires e.Collect?
    ensures var r := VoteStep(valid, verify, s, e);
            && r.validators == s.validators
            && (height in s.pending ==>
                  && height in r.pending && r.pending[height].blockHash == s.pending[height].blockHash
                  && s.pending[height].signatures.Keys <= r.pending[height].signatures.Keys)
            && (height in r.pending ==>
                  NewVoter(valid, verify, s.validators, e, height, r.pending[height].blockHash) <= r.pending[height].signatures.Keys)
            && (height !in r.pending ==> forall hash :: NewVoter(valid, verify, s.validators, e, height, hash) == {})
            && (height in r.pending && height !in s.pending ==> r.pending[height].blockHash == e.hash)
  {
  }

  lemma {:induction false} RunIsComplete(valid: SignatureCheck, verify: bool, s: ConsensusState, events: seq<VoteEvent>, height: u64)
    requires s.pending == map[]
    requires forall i :: 0 <= i < |events| ==> events[i].Collect?
    ensures var r := VoteRun(valid, verify, s, events);
            r.validators == s.validators && Complete(valid, verify, r, events, height)
  {
    if events != [] {
      var front, e := events[..|events| - 1], events[|events| - 1];
      RunIsComplete(valid, verify, s, front, height);
      forall hash
        ensures Voters(valid, verify, s.validators, events, height, hash)
             == Voters(valid, verify, s.validators, front, height, hash) + NewVoter(valid, verify, s.validators, e, height, hash)
      {
        VotersGrow(valid, verify, s.validators, events, height, hash);
      }
      CollectMissesNobody(valid, verify, VoteRun(valid, verify, s, front), e, height);
    }
  }

  /** The engine reports consensus exactly when more than two thirds of the power signed the settled block. */
  lemma ConsensusIsTwoThirds(valid: SignatureCheck, verify: bool, s: ConsensusState, events: seq<VoteEvent>, height: u64)
    requires s.pending == map[] && TotalPower(s.validators) <= U64_MAX / 2
    requires forall i :: 0 <= i < |events| ==> events[i].Collect?
    requires height in VoteRun(valid, verify, s, events).pending
    ensures var r := VoteRun(valid, verify, s, events);
            var voters := Voters(valid, verify, s.validators, events, height, r.pending[height].blockHash);
            CheckConsensus(r, height) <==> 3 * SumOver(Powers(s.validators), voters) > 2 * TotalPower(s.validators)
  {
    RunIsExact(valid, verify, s, events, height);
    RunIsComplete(valid, verify, s, events, height);
    var found := VoteRun(valid, verify, s, events).pending[height];
    assert found.signatures.Keys == Voters(valid, verify, s.validators, events, height, found.blockHash);
    QuorumIsTwoThirds(TotalPower(s.validators), found.powerCollected);
  }
}
