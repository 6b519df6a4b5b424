/**
  Whose turn it is at a height. The node walks the active validators in address order and stops where
  the running power passes a target; here the outcome is defined without any walk.
 */
module Proposer {
  import opened Common
  import opened Sums
  import opened Ordering
  import opened Consensus

  function ActivePowers(vs: map<string, Validator>): map<string, nat> {
    map a | a in vs && vs[a].isActive :: vs[a].votingPower
  }

  function Before(powers: map<string, nat>, v: string): set<string> {
    set u | u in powers && u != v && StringLe(u, v)
  }

  /** The target falls into this validator's share, which starts where the smaller addresses' power ends. */
  ghost predicate Chosen(powers: map<string, nat>, v: string, target: nat) {
    v in powers && SumOver(powers, Before(powers, v)) <= target < SumOver(powers, Before(powers, v)) + powers[v]
  }

  lemma ShareEnds(powers: map<string, nat>, v: string)
    requires v in powers
    ensures SumOver(powers, Before(powers, v) + {v}) == SumOver(powers, Before(powers, v)) + powers[v] <= MapSum(powers)
  {
    SumOverInsert(powers, Before(powers, v), v);
    SumOverSubset(powers, Before(powers, v) + {v}, powers.Keys);
    assert Restrict(powers, powers.Keys) == powers;
  }

  lemma SharesAreDisjoint(powers: map<string, nat>, v: string, w: string)
    requires v in powers && w in powers && v != w && StringLe(v, w)
    ensures SumOver(powers, Before(powers, v)) + powers[v] <= SumOver(powers, Before(powers, w))
  {
    StringOrder();
    ShareEnds(powers, v);
    SumOverSubset(powers, Before(powers, v) + {v}, Before(powers, w));
  }

  lemma ChosenIsUnique(powers: map<string, nat>, v: string, w: string, target: nat)
    requires Chosen(powers, v, target) && Chosen(powers, w, target)
    ensures v == w
  {
    StringOrder();
    if v != w {
      if StringLe(v, w) {
        SharesAreDisjoint(powers, v, w);
      } else {
        SharesAreDisjoint(powers, w, v);
      }
    }
  }

  lemma {:induction false} Greatest(s: set<string>) returns (m: string)
    requires s != {}
    ensures m in s && forall u :: u in s ==> StringLe(u, m)
    decreases |s|
  {
    StringOrder();
    var x :| x in s;
    if s == {x} {
      m := x;
    } else {
      assert s - {x} != {};
      var n := Greatest(s - {x});
      m := if StringLe(x, n) then n else x;
    }
  }

  predicate DownClosed(powers: map<string, nat>, s: set<string>) {
    s <= powers.Keys && forall u, v :: u in powers && v in s && StringLe(u, v) ==> u in s
  }

  lemma NobodyWeighsNothing(powers: map<string, nat>)
    ensures SumOver(powers, {}) == 0
  {
  }

  /** Some share covers every target below the total. */
  lemma {:induction false} ChosenExists(powers: map<string, nat>, s: set<string>, target: nat) returns (v: string)
    requires DownClosed(powers, s) && target < SumOver(powers, s)
    ensures Chosen(powers, v, target)
    decreases |s|
  {
    NobodyWeighsNothing(powers);
    if s == {} {
      v := "";
    } else {
      StringOrder();
      var m := Greatest(s);
      assert s - {m} == Before(powers, m);
      assert s == Before(powers, m) + {m};
      ShareEnds(powers, m);
      if target < SumOver(powers, s - {m}) {
        v := ChosenExists(powers, s - {m}, target);
      } else {
        v := m;
      }
    }
  }

  /** Exactly one validator is chosen for every target below the total. */
  lemma ExactlyOneIsChosen(powers: map<string, nat>, target: nat)
    requires target < MapSum(powers)
    ensures exists v :: Chosen(powers, v, target) && forall w :: Chosen(powers, w, target) ==> w == v
  {
    assert Restrict(powers, powers.Keys) == powers;
    var v := ChosenExists(powers, powers.Keys, target);
    forall w | Chosen(powers, w, target) ensures w == v {
      ChosenIsUnique(powers, w, v, target);
    }
  }

  lemma {:induction false} IntervalSize(low: nat, size: nat, s: set<nat>)
    requires forall t :: t in s <==> low <= t < low + size
    ensures |s| == size
  {
    if size > 0 {
      IntervalSize(low, size - 1, s - {low + size - 1});
    } else {
      assert s == {};
    }
  }

  /** Of all targets below the total, each validator gets exactly as many as it has power. */
  lemma ShareIsProportional(powers: map<string, nat>, v: string)
    requires v in powers
    ensures |set t: nat | 0 <= t < MapSum(powers) && Chosen(powers, v, t)| == powers[v]
  {
    ShareEnds(powers, v);
    IntervalSize(SumOver(powers, Before(powers, v)), powers[v], set t: nat | 0 <= t < MapSum(powers) && Chosen(powers, v, t));
  }

  // ---------------------------------------------------------------- the walk

  function Elems(s: seq<string>): set<string> {
    set a | a in s
  }

  /** A list of the active addresses, each once, in address order. */
  ghost predicate IsRoster(powers: map<string, nat>, order: seq<string>) {
    SortedBy(StringLe, order) && multiset(order) == multiset(powers.Keys)
  }

  lemma PrefixIsBefore(powers: map<string, nat>, order: seq<string>, i: nat)
    requires IsRoster(powers, order) && i < |order|
    ensures order[i] in powers && Elems(order[..i]) == Before(powers, order[i])
    ensures Elems(order[..i + 1]) == Elems(order[..i]) + {order[i]} && order[i] !in Elems(order[..i])
  {
    RosterKeys(powers, order);
    StringOrder();
    NoRepeats(powers, order);
    forall u ensures u in Elems(order[..i]) <==> u in Before(powers, order[i]) {
      if u in Elems(order[..i]) {
        var j :| 0 <= j < i && order[j] == u;
      }
      if u in Before(powers, order[i]) {
        var j :| 0 <= j < |order| && order[j] == u;
      }
    }
    assert order[..i + 1] == order[..i] + [order[i]];
  }

  lemma RosterKeys(powers: map<string, nat>, order: seq<string>)
    requires multiset(order) == multiset(powers.Keys)
    ensures forall a :: a in order <==> a in powers
  {
    forall a ensures a in order <==> a in powers {
      assert a in multiset(order) <==> a in multiset(powers.Keys);
    }
  }

  lemma NoRepeats(powers: map<string, nat>, order: seq<string>)
    requires multiset(order) == multiset(powers.Keys)
    ensures forall i, j :: 0 <= i < j < |order| ==> order[i] != order[j]
  {
    forall i, j | 0 <= i < j < |order| ensures order[i] != order[j] {
      var left, right := order[..j], order[j..];
      assert order == left + right;
      assert multiset(order) == multiset(left) + multiset(right);
      assert left[i] in multiset(left) && right[0] in multiset(right);
      assert multiset(powers.Keys)[order[i]] <= 1;
    }
  }

  lemma AppendNew(order: seq<string>, addresses: set<string>, a: string)
    requires multiset(order) == multiset(addresses) && a !in addresses
    ensures multiset(order + [a]) == multiset(addresses + {a})
  {
  }

  /** Adding one more validator to a wrapped sum; one that has no power in the map adds nothing. */
  lemma AddPower(powers: map<string, nat>, done: set<string>, a: string, sum: u64)
    requires a !in done && sum == Word(SumOver(powers, done))
    requires a in powers ==> powers[a] <= U64_MAX
    ensures (if a in powers then WrapAdd(sum, powers[a]) else sum) == Word(SumOver(powers, done + {a}))
  {
    SumOverInsert(powers, done, a);
    if a in powers {
      AddToWord(SumOver(powers, done), powers[a]);
    }
  }

  /** The running power after i entries. */
  ghost function PowerUpTo(powers: map<string, nat>, order: seq<string>, i: nat): nat
    requires i <= |order|
  {
    SumOver(powers, Elems(order[..i]))
  }

  lemma WalkStarts(powers: map<string, nat>, order: seq<string>)
    ensures PowerUpTo(powers, order, 0) == 0
  {
  }

  /** The first entry that takes the running power past the target is the chosen one. */
  lemma WalkStep(powers: map<string, nat>, order: seq<string>, i: nat, target: nat)
    requires IsRoster(powers, order) && i < |order|
    requires PowerUpTo(powers, order, i) <= target
    ensures order[i] in powers
    ensures PowerUpTo(powers, order, i + 1) == PowerUpTo(powers, order, i) + powers[order[i]] <= MapSum(powers)
    ensures Chosen(powers, order[i], target) <==> PowerUpTo(powers, order, i + 1) > target
  {
    PrefixIsBefore(powers, order, i);
    ShareEnds(powers, order[i]);
  }

  lemma WalkEnds(powers: map<string, nat>, order: seq<string>)
    requires multiset(order) == multiset(powers.Keys)
    ensures PowerUpTo(powers, order, |order|) == MapSum(powers)
  {
    RosterKeys(powers, order);
    assert order[..|order|] == order;
    assert Restrict(powers, Elems(order)) == powers;
  }

  lemma AddRosterPower(powers: map<string, nat>, order: seq<string>, i: nat, sum: u64)
    requires IsRoster(powers, order) && i < |order| && sum == Word(PowerUpTo(powers, order, i))
    requires order[i] in powers ==> powers[order[i]] <= U64_MAX
    ensures order[i] in powers && WrapAdd(sum, powers[order[i]]) == Word(PowerUpTo(powers, order, i + 1))
  {
    PrefixIsBefore(powers, order, i);
    AddPower(powers, Elems(order[..i]), order[i], sum);
  }

  // ---------------------------------------------------------------- the walk on 64-bit words

  /** Where the walk stops: the first entry whose running power, as a word, exceeds the target. */
  ghost function Stop(powers: map<string, nat>, order: seq<string>, target: nat, i: nat): (stop: nat)
    requires i <= |order|
    ensures i <= stop <= |order|
    decreases |order| - i
  {
    if i == |order| then i
    else if Word(PowerUpTo(powers, order, i + 1)) > target then i
    else Stop(powers, order, target, i + 1)
  }

  /** The walk's answer, with its fallback. */
  ghost function Selected(powers: map<string, nat>, order: seq<string>, target: nat): (v: string)
    requires order != []
    ensures v in order
  {
    var stop := Stop(powers, order, target, 0);
    if stop < |order| then order[stop] else order[0]
  }

  /** There is only one list of the active addresses in address order. */
  lemma RosterIsUnique(powers: map<string, nat>, order: seq<string>, order': seq<string>)
    requires IsRoster(powers, order) && IsRoster(powers, order')
    ensures order == order'
  {
    StringOrder();
    SortedIsUnique(StringLe, order, order');
  }

  /** While the powers' sum fits the word, the walk stops at the validator whose share covers the target. */
  lemma {:induction false} StopIsChosen(powers: map<string, nat>, order: seq<string>, target: nat, i: nat)
    requires IsRoster(powers, order) && i <= |order| && PowerUpTo(powers, order, i) <= target < MapSum(powers) <= U64_MAX
    ensures var stop := Stop(powers, order, target, i); stop < |order| && Chosen(powers, order[stop], target)
    decreases |order| - i
  {
    if i == |order| {
      WalkEnds(powers, order);
    } else {
      WalkStep(powers, order, i, target);
      if PowerUpTo(powers, order, i + 1) <= target {
        StopIsChosen(powers, order, target, i + 1);
      }
    }
  }

  lemma SelectedIsChosen(powers: map<string, nat>, order: seq<string>, target: nat)
    requires IsRoster(powers, order) && order != [] && target < MapSum(powers) <= U64_MAX
    ensures Chosen(powers, Selected(powers, order, target), target)
  {
    WalkStarts(powers, order);
    StopIsChosen(powers, order, target, 0);
  }

  /** The numbers below n that f sends to v. */
  ghost function Hits(f: nat -> string, v: string, n: nat): set<nat> {
    set t: nat | 0 <= t < n && f(t) == v
  }

  ghost function HitCounts(f: nat -> string, keys: set<string>, n: nat): map<string, nat> {
    map v | v in keys :: |Hits(f, v, n)|
  }

  lemma OneMoreHit(f: nat -> string, v: string, n: nat)
    requires n > 0
    ensures |Hits(f, v, n)| == |Hits(f, v, n - 1)| + if f(n - 1) == v then 1 else 0
  {
    var before, now := Hits(f, v, n - 1), Hits(f, v, n);
    var last: nat := n - 1;
    assert last !in before && (last in now <==> f(last) == v);
    assert forall t: nat :: t != last ==> (t in now <==> t in before);
    assert now - {last} == before;
    if f(last) == v {
      assert now == before + {last};
    }
  }

  lemma OneMoreCount(f: nat -> string, keys: set<string>, n: nat)
    requires n > 0 && f(n - 1) in keys
    ensures var v, before := f(n - 1), HitCounts(f, keys, n - 1);
            HitCounts(f, keys, n) == before[v := before[v] + 1]
  {
    forall w | w in keys ensures |Hits(f, w, n)| == |Hits(f, w, n - 1)| + if f(n - 1) == w then 1 else 0 {
      OneMoreHit(f, w, n);
    }
  }

  lemma OneMore(m: map<string, nat>, v: string)
    requires v in m
    ensures MapSum(m[v := m[v] + 1]) == MapSum(m) + 1
  {
    MapSumUpdate(m, v, m[v] + 1);
  }

  lemma NoHits(f: nat -> string, keys: set<string>)
    ensures MapSum(HitCounts(f, keys, 0)) == 0
  {
    forall v | v in keys ensures |Hits(f, v, 0)| == 0 {
      assert Hits(f, v, 0) == {};
    }
    NoCounts(HitCounts(f, keys, 0));
  }

  /** Every number goes somewhere, so the counts add up. */
  lemma {:induction false} HitsAddUp(f: nat -> string, keys: set<string>, n: nat)
    requires forall t: nat :: f(t) in keys
    ensures MapSum(HitCounts(f, keys, n)) == n
  {
    if n == 0 {
      NoHits(f, keys);
    } else {
      HitsAddUp(f, keys, n - 1);
      OneMoreCount(f, keys, n);
      OneMore(HitCounts(f, keys, n - 1), f(n - 1));
    }
  }

  ghost function Selector(powers: map<string, nat>, order: seq<string>): nat -> string
    requires order != []
  {
    (t: nat) => Selected(powers, order, t)
  }

  /** The targets below n for which the walk ends at v. */
  ghost function TargetsOf(powers: map<string, nat>, order: seq<string>, v: string, n: nat): set<nat>
    requires order != []
  {
    Hits(Selector(powers, order), v, n)
  }

  lemma {:induction false} NoCounts(m: map<string, nat>)
    requires forall v :: v in m ==> m[v] == 0
    ensures MapSum(m) == 0
    decreases |m|
  {
    if m != map[] {
      var v :| v in m;
      MapSumRemove(m, v);
      NoCounts(m - {v});
    }
  }

  /** Of the targets that can come up, each validator gets exactly as many as it has power. */
  ghost predicate Proportional(powers: map<string, nat>, order: seq<string>)
    requires order != []
  {
    forall v :: v in powers ==> |TargetsOf(powers, order, v, Word(MapSum(powers)))| == powers[v]
  }

  /** The walk over the wrapped total is proportional exactly while the powers' sum fits the word. */
  lemma ProportionalExactly(powers: map<string, nat>, order: seq<string>)
    requires IsRoster(powers, order) && order != []
    ensures Proportional(powers, order) <==> MapSum(powers) <= U64_MAX
  {
    var total := Word(MapSum(powers));
    if MapSum(powers) <= U64_MAX {
      forall v | v in powers ensures |TargetsOf(powers, order, v, total)| == powers[v] {
        TargetsAreShares(powers, order, v);
        ShareIsProportional(powers, v);
      }
    }
    if Proportional(powers, order) {
      ProportionalAddsUp(powers, order);
    }
  }

  /** If every validator got its power, the powers would add up to the number of targets. */
  lemma ProportionalAddsUp(powers: map<string, nat>, order: seq<string>)
    requires IsRoster(powers, order) && order != [] && Proportional(powers, order)
    ensures MapSum(powers) == Word(MapSum(powers))
  {
    RosterKeys(powers, order);
    HitsAddUp(Selector(powers, order), powers.Keys, Word(MapSum(powers)));
    CountsArePowers(powers, order);
  }

  lemma CountsArePowers(powers: map<string, nat>, order: seq<string>)
    requires order != [] && Proportional(powers, order)
    ensures HitCounts(Selector(powers, order), powers.Keys, Word(MapSum(powers))) == powers
  {
    forall v | v in powers ensures |Hits(Selector(powers, order), v, Word(MapSum(powers)))| == powers[v] {
      assert |TargetsOf(powers, order, v, Word(MapSum(powers)))| == powers[v];
    }
  }

  lemma TargetsAreShares(powers: map<string, nat>, order: seq<string>, v: string)
    requires IsRoster(powers, order) && order != [] && MapSum(powers) <= U64_MAX && v in powers
    ensures TargetsOf(powers, order, v, MapSum(powers)) == set t: nat | 0 <= t < MapSum(powers) && Chosen(powers, v, t)
  {
    forall t: nat | t < MapSum(powers) ensures Selected(powers, order, t) == v <==> Chosen(powers, v, t) {
      SelectedIsChosen(powers, order, t);
      if Chosen(powers, v, t) {
        ChosenIsUnique(powers, v, Selected(powers, order, t), t);
      }
    }
  }

  /** Two validators whose powers sum to 2^64 + 10: only ten targets come up, and all of them select the first. */
  lemma WrappedSelection(target: nat)
    requires target < 10
    ensures var powers: map<string, nat> := map["a" := 0x8000_0000_0000_0000, "b" := 0x8000_0000_0000_000A];
            && MapSum(powers) == U64_MAX + 11 && Word(MapSum(powers)) == 10
            && IsRoster(powers, ["a", "b"]) && Selected(powers, ["a", "b"], target) == "a"
  {
    var none: map<string, nat> := map[];
    var one := none["a" := 0x8000_0000_0000_0000];
    var powers := one["b" := 0x8000_0000_0000_000A];
    MapSumUpdate(none, "a", 0x8000_0000_0000_0000);
    MapSumUpdate(one, "b", 0x8000_0000_0000_000A);
    assert powers == map["a" := 0x8000_0000_0000_0000, "b" := 0x8000_0000_0000_000A];
    assert Word(U64_MAX + 11) == 10;
    assert powers.Keys == {"a", "b"} && multiset(["a", "b"]) == multiset(powers.Keys);
    assert Elems(["a", "b"][..1]) == {"a"};
    assert Restrict(powers, {"a"}) == one;
    assert PowerUpTo(powers, ["a", "b"], 1) == 0x8000_0000_0000_0000;
  }
}
