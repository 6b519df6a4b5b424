/** Live shard expansion: collect every account, hash it again over more shards, swap the shards in. */
module Expansion {
  import opened Common
  import opened Sums
  import opened Ledger
  import opened LedgerSafety

  /** All accounts of all shards; a later shard overrides an earlier one. */
  function AllAccounts(shards: seq<ShardState>): map<Address, Account> {
    if shards == [] then map[] else AllAccounts(shards[..|shards| - 1]) + shards[|shards| - 1].accounts
  }

  /** The accounts whose address hashes to shard s. */
  function Part(c: Crypto, all: map<Address, Account>, n: nat, s: nat): map<Address, Account>
    requires n > 0
  {
    map a | a in all && ShardOf(c, a, n) == s :: all[a]
  }

  function Redistributed(c: Crypto, all: map<Address, Account>, n: nat): (shards: seq<ShardState>)
    requires n > 0
    ensures |shards| == n
  {
    seq(n, s requires 0 <= s < n => ShardState(Part(c, all, n, s), map[], true))
  }

  function ExpandedCount(cfg: Config, additional: nat): nat {
    Min(cfg.shardCount + additional, cfg.maxShards)
  }

  function ExpandShards(c: Crypto, L: LedgerState, additional: nat): LedgerState
    requires ValidConfig(L.config)
  {
    var n := ExpandedCount(L.config, additional);
    if n == L.config.shardCount then L else
      L.(config := L.config.(shardCount := n), shards := Redistributed(c, AllAccounts(L.shards), n))
  }

  /** Asked for so many more shards, the ledger gets them, as far as the maximum goes; the rest of its configuration stays. */
  lemma ExpansionCounts(c: Crypto, L: LedgerState, additional: nat)
    requires ValidConfig(L.config)
    ensures var cfg := ExpandShards(c, L, additional).config;
            && (L.config.shardCount + additional <= L.config.maxShards ==> cfg.shardCount == L.config.shardCount + additional)
            && (L.config.shardCount + additional > L.config.maxShards ==> cfg.shardCount == L.config.maxShards)
            && cfg.(shardCount := L.config.shardCount) == L.config && ValidConfig(cfg)
    ensures L.config.shardCount == L.config.maxShards || additional == 0 ==> ExpandShards(c, L, additional) == L
  {
  }

  /** What a balance query returns: the balance in the shard the address hashes to. */
  function GetBalance(c: Crypto, L: LedgerState, a: Address): u64
    requires |L.shards| == L.config.shardCount > 0
  {
    BalanceOf(L.shards[ShardOf(c, a, L.config.shardCount)], a)
  }

  /** With every account in its own shard, the merged map is exactly what the queries see. */
  lemma {:induction false} MergedAccount(c: Crypto, shards: seq<ShardState>, k: nat, a: Address)
    requires k <= |shards| && HomePlaced(c, shards) && |shards| > 0
    ensures var home := ShardOf(c, a, |shards|);
            var all := AllAccounts(shards[..k]);
            && (a in all <==> home < k && a in shards[home].accounts)
            && (a in all ==> all[a] == shards[home].accounts[a])
  {
    if k > 0 {
      assert shards[..k][..k - 1] == shards[..k - 1];
      MergedAccount(c, shards, k - 1, a);
    }
  }

  lemma {:induction false} MergedTotal(c: Crypto, shards: seq<ShardState>, k: nat)
    requires k <= |shards| && HomePlaced(c, shards) && |shards| > 0
    ensures MapSum(Balances(AllAccounts(shards[..k]))) == Supply(shards[..k])
  {
    if k > 0 {
      assert shards[..k][..k - 1] == shards[..k - 1];
      MergedTotal(c, shards, k - 1);
      assert shards[..k][k - 1] == shards[k - 1];
      var earlier, last := AllAccounts(shards[..k - 1]), shards[k - 1].accounts;
      forall a | a in earlier ensures a !in last {
        MergedAccount(c, shards, k - 1, a);
      }
      BalancesOfUnion(earlier, last);
    }
  }

  lemma BalancesOfUnion(earlier: map<Address, Account>, last: map<Address, Account>)
    requires forall a :: a in earlier ==> a !in last
    ensures MapSum(Balances(earlier + last)) == MapSum(Balances(earlier)) + MapSum(Balances(last))
  {
    assert Balances(earlier).Keys !! Balances(last).Keys;
    MapSumDisjoint(Balances(earlier), Balances(last));
    assert Balances(earlier + last) == Balances(earlier) + Balances(last);
  }

  /** The accounts hashed to the first k shards. */
  ghost function Below(c: Crypto, all: map<Address, Account>, n: nat, k: nat): map<Address, nat>
    requires n > 0
  {
    map a | a in all && ShardOf(c, a, n) < k :: all[a].balance
  }

  lemma BelowSplit(c: Crypto, all: map<Address, Account>, n: nat, k: nat)
    requires 0 < k <= n
    ensures Below(c, all, n, k - 1).Keys !! Balances(Part(c, all, n, k - 1)).Keys
    ensures Below(c, all, n, k) == Below(c, all, n, k - 1) + Balances(Part(c, all, n, k - 1))
  {
  }

  lemma {:induction false} RedistributedTotal(c: Crypto, all: map<Address, Account>, n: nat, k: nat)
    requires 0 < n && k <= n
    ensures Supply(Redistributed(c, all, n)[..k]) == MapSum(Below(c, all, n, k))
  {
    var shards := Redistributed(c, all, n);
    if k == 0 {
      assert Below(c, all, n, 0) == map[];
    } else {
      assert shards[..k][..k - 1] == shards[..k - 1];
      RedistributedTotal(c, all, n, k - 1);
      BelowSplit(c, all, n, k);
      MapSumDisjoint(Below(c, all, n, k - 1), Balances(Part(c, all, n, k - 1)));
      assert shards[k - 1].accounts == Part(c, all, n, k - 1);
    }
  }

  lemma ExpansionKeepsSupply(c: Crypto, L: LedgerState, additional: nat)
    requires ValidConfig(L.config) && |L.shards| == L.config.shardCount && HomePlaced(c, L.shards)
    ensures Supply(ExpandShards(c, L, additional).shards) == Supply(L.shards)
  {
    var n := ExpandedCount(L.config, additional);
    var all := AllAccounts(L.shards);
    assert L.shards[..|L.shards|] == L.shards;
    MergedTotal(c, L.shards, |L.shards|);
    RedistributedTotal(c, all, n, n);
    assert Redistributed(c, all, n)[..n] == Redistributed(c, all, n);
    assert Below(c, all, n, n) == Balances(all);
  }

  lemma ExpansionKeepsBalance(c: Crypto, L: LedgerState, additional: nat, a: Address)
    requires ValidConfig(L.config) && |L.shards| == L.config.shardCount && HomePlaced(c, L.shards)
    ensures var L' := ExpandShards(c, L, additional);
            |L'.shards| == L'.config.shardCount && GetBalance(c, L', a) == GetBalance(c, L, a)
  {
    var n := ExpandedCount(L.config, additional);
    assert L.shards[..|L.shards|] == L.shards;
    MergedAccount(c, L.shards, |L.shards|, a);
    assert Redistributed(c, AllAccounts(L.shards), n)[ShardOf(c, a, n)].accounts
        == Part(c, AllAccounts(L.shards), n, ShardOf(c, a, n));
  }

  /**
    Expansion answers every balance query as before, re-establishes placement for the new count,
    keeps the supply and never exceeds the configured maximum. Nonce trackers are not carried over:
    after a real expansion every sender is expected to start again at zero.
   */
  lemma ExpansionIsSafe(c: Crypto, L: LedgerState, additional: nat)
    requires ValidConfig(L.config) && |L.shards| == L.config.shardCount && HomePlaced(c, L.shards)
    ensures var L' := ExpandShards(c, L, additional);
            && |L'.shards| == L'.config.shardCount == ExpandedCount(L.config, additional)
            && L.config.shardCount <= L'.config.shardCount <= L'.config.maxShards
            && HomePlaced(c, L'.shards)
            && Supply(L'.shards) == Supply(L.shards)
            && (forall a :: GetBalance(c, L', a) == GetBalance(c, L, a))
            && (L'.config != L.config ==> AllHealthy(L'.shards) && forall a :: HomeNonce(c, L'.shards, a) == 0)
  {
    ExpansionKeepsSupply(c, L, additional);
    forall a ensures GetBalance(c, ExpandShards(c, L, additional), a) == GetBalance(c, L, a) {
      ExpansionKeepsBalance(c, L, additional, a);
    }
  }
}
