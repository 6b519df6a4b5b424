/** What a list of paid transfers does to every address, whatever their order. */
module TransferEffects {
  import opened Common
  import opened Ledger
  import opened LedgerSafety
  import opened TwoPhaseCommit

  // ---------------------------------------------------------------- what transfers do to one address

  /** By how much the balance moves, and how many transfers go out and come in. */
  datatype Effect = Effect(net: int, sent: nat, received: nat)

  function EffectOf(tx: Transaction, a: Address): Effect {
    Effect((if tx.to == a then tx.amount else 0) - (if tx.from == a then tx.amount else 0),
           if tx.from == a then 1 else 0, if tx.to == a then 1 else 0)
  }

  function Plus(x: Effect, y: Effect): Effect {
    Effect(x.net + y.net, x.sent + y.sent, x.received + y.received)
  }

  function EffectOn(txs: seq<Transaction>, a: Address): Effect {
    if txs == [] then Effect(0, 0, 0) else Plus(EffectOn(txs[..|txs| - 1], a), EffectOf(txs[|txs| - 1], a))
  }

  lemma EffectOfOne(tx: Transaction, a: Address)
    ensures EffectOn([tx], a) == EffectOf(tx, a)
  {
    assert [tx][..0] == [];
  }

  lemma EffectOfSnoc(l: seq<Transaction>, tx: Transaction, a: Address)
    ensures EffectOn(l + [tx], a) == Plus(EffectOf(tx, a), EffectOn(l, a))
  {
    assert (l + [tx])[..|l|] == l;
  }

  lemma {:induction false} EffectConcat(l: seq<Transaction>, m: seq<Transaction>, a: Address)
    ensures EffectOn(l + m, a) == Plus(EffectOn(l, a), EffectOn(m, a))
    decreases |m|
  {
    if m == [] {
      assert l + m == l;
    } else {
      assert (l + m)[..|l + m| - 1] == l + m[..|m| - 1];
      EffectConcat(l, m[..|m| - 1], a);
    }
  }

  /** Everything a shard knows about one address. */
  datatype View = View(balance: u64, nonce: u64, held: bool, tracked: bool, stamp: u64)

  function ViewOf(s: ShardState, a: Address): View {
    View(BalanceOf(s, a), NonceOf(s, a), a in s.accounts, a in s.nonces, if a in s.accounts then s.accounts[a].nonce else 0)
  }

  function ViewAt(c: Crypto, shards: seq<ShardState>, a: Address): View
    requires |shards| > 0
  {
    ViewOf(shards[ShardOf(c, a, |shards|)], a)
  }

  predicate Moves(v: View, w: View, e: Effect) {
    && w.balance == v.balance + e.net && w.nonce == (v.nonce + e.sent) % U64_SIZE
    && (w.held <==> v.held || e.received > 0) && (w.tracked <==> v.tracked || e.sent > 0) && w.stamp == v.stamp
  }

  lemma MovesCompose(u: View, v: View, w: View, e: Effect, f: Effect)
    requires Moves(u, v, e) && Moves(v, w, f)
    ensures Moves(u, w, Plus(e, f))
  {
    WordShift(u.nonce + e.sent, f.sent);
  }

  lemma MovesRest(u: View, v: View, w: View, e: Effect, f: Effect)
    requires Moves(u, v, e) && Moves(u, w, Plus(e, f))
    ensures Moves(v, w, f)
  {
    WordShift(u.nonce + e.sent, f.sent);
  }

  /** The shards t are what the transfers make of the shards s, in whatever order. */
  ghost predicate Ahead(c: Crypto, s: seq<ShardState>, t: seq<ShardState>, txs: seq<Transaction>)
    requires |s| == |t| > 0
  {
    forall a :: Moves(ViewAt(c, s, a), ViewAt(c, t, a), EffectOn(txs, a))
  }

  lemma AheadOfNothing(c: Crypto, s: seq<ShardState>)
    requires |s| > 0
    ensures Ahead(c, s, s, [])
  {
  }

  /** One way round, and the other. */
  lemma AheadCompose(c: Crypto, s: seq<ShardState>, t: seq<ShardState>, u: seq<ShardState>, l: seq<Transaction>, m: seq<Transaction>)
    requires |s| == |t| == |u| > 0 && Ahead(c, s, t, l) && Ahead(c, t, u, m)
    ensures Ahead(c, s, u, l + m)
  {
    forall a ensures Moves(ViewAt(c, s, a), ViewAt(c, u, a), EffectOn(l + m, a)) {
      MovesCompose(ViewAt(c, s, a), ViewAt(c, t, a), ViewAt(c, u, a), EffectOn(l, a), EffectOn(m, a));
      EffectConcat(l, m, a);
    }
  }

  /** If the transfers beyond s are one that leads to t and the rest, the rest leads on from t. */
  lemma AheadRest(c: Crypto, s: seq<ShardState>, t: seq<ShardState>, u: seq<ShardState>,
                  all: seq<Transaction>, tx: Transaction, rest: seq<Transaction>)
    requires |s| == |t| == |u| > 0 && Ahead(c, s, t, [tx]) && Ahead(c, s, u, all)
    requires forall a :: EffectOn(all, a) == Plus(EffectOf(tx, a), EffectOn(rest, a))
    ensures Ahead(c, t, u, rest)
  {
    forall a ensures Moves(ViewAt(c, t, a), ViewAt(c, u, a), EffectOn(rest, a)) {
      EffectOfOne(tx, a);
      MovesRest(ViewAt(c, s, a), ViewAt(c, t, a), ViewAt(c, u, a), EffectOf(tx, a), EffectOn(rest, a));
    }
  }

  /** Both sides apply the same transfer. */
  lemma AheadBoth(c: Crypto, s: seq<ShardState>, t: seq<ShardState>, s': seq<ShardState>, t': seq<ShardState>,
                  l: seq<Transaction>, tx: Transaction)
    requires |s| == |t| == |s'| == |t'| > 0
    requires Ahead(c, s, t, l) && Ahead(c, s, s', [tx]) && Ahead(c, t, t', [tx])
    ensures Ahead(c, s', t', l)
  {
    AheadCompose(c, s, t, t', l, [tx]);
    forall a ensures EffectOn(l + [tx], a) == Plus(EffectOf(tx, a), EffectOn(l, a)) {
      EffectOfSnoc(l, tx, a);
    }
    AheadRest(c, s, s', t', l + [tx], tx, l);
  }

  /** Shards with every address at home and no transfers between them are the same shards. */
  lemma AheadByNothing(c: Crypto, s: seq<ShardState>, t: seq<ShardState>)
    requires |s| == |t| > 0 && Ahead(c, s, t, []) && HomePlaced(c, s) && HomePlaced(c, t) && AllHealthy(s) && AllHealthy(t)
    ensures s == t
  {
    forall i | 0 <= i < |s| ensures s[i] == t[i] {
      forall a ensures ViewOf(s[i], a) == ViewOf(t[i], a) {
        assert Moves(ViewAt(c, s, a), ViewAt(c, t, a), EffectOn([], a));
      }
      SameViews(s[i], t[i]);
    }
  }

  lemma SameViews(s: ShardState, t: ShardState)
    requires s.healthy && t.healthy && forall a :: ViewOf(s, a) == ViewOf(t, a)
    ensures s == t
  {
    assert forall a :: a in s.accounts <==> a in t.accounts by {
      forall a ensures a in s.accounts <==> a in t.accounts {
        assert ViewOf(s, a) == ViewOf(t, a);
      }
    }
    assert forall a :: a in s.nonces <==> a in t.nonces by {
      forall a ensures a in s.nonces <==> a in t.nonces {
        assert ViewOf(s, a) == ViewOf(t, a);
      }
    }
    forall a | a in s.accounts ensures s.accounts[a] == t.accounts[a] {
      assert ViewOf(s, a) == ViewOf(t, a);
    }
    forall a | a in s.nonces ensures s.nonces[a] == t.nonces[a] {
      assert ViewOf(s, a) == ViewOf(t, a);
    }
    assert s.accounts == t.accounts && s.nonces == t.nonces;
  }

  /** A transfer that is paid does what its effect says, in a supply within the word. */
  lemma TransferMoves(c: Crypto, L: LedgerState, e: CrossTx)
    requires InOrder(c, L) && EntryOk(c, |L.shards|, e) && Payable(c, L, e) && Supply(L.shards) <= U64_MAX
    ensures Ahead(c, L.shards, Transferred(L.shards, e), [e.tx])
  {
    RoomForCredit(L.shards, e.fromShard, e.toShard, e.tx);
    TransferredShards(c, L.shards, Transferred(L.shards, e), e.tx);
  }

  lemma TransferredShards(c: Crypto, s: seq<ShardState>, t: seq<ShardState>, tx: Transaction)
    requires |s| == |t| > 0
    requires var i, j := ShardOf(c, tx.from, |s|), ShardOf(c, tx.to, |s|);
             i != j && CanMove(s, i, j, tx) && t == s[i := Debit(s[i], tx)][j := Credit(s[j], tx.to, tx.amount)]
    ensures Ahead(c, s, t, [tx])
  {
    var i, j := ShardOf(c, tx.from, |s|), ShardOf(c, tx.to, |s|);
    forall a ensures Moves(ViewAt(c, s, a), ViewAt(c, t, a), EffectOn([tx], a)) {
      EffectOfOne(tx, a);
      TransferredAt(s, t, i, j, ShardOf(c, a, |s|), tx, a);
    }
  }

  predicate CanMove(s: seq<ShardState>, i: nat, j: nat, tx: Transaction)
    requires i < |s| && j < |s|
  {
    && tx.from in s[i].accounts && s[i].accounts[tx.from].balance >= tx.amount && tx.nonce == NonceOf(s[i], tx.from)
    && BalanceOf(s[j], tx.to) + tx.amount <= U64_MAX
  }

  lemma TransferredAt(s: seq<ShardState>, t: seq<ShardState>, i: nat, j: nat, k: nat, tx: Transaction, a: Address)
    requires i < |s| && j < |s| && k < |s| == |t| && i != j && CanMove(s, i, j, tx)
    requires t == s[i := Debit(s[i], tx)][j := Credit(s[j], tx.to, tx.amount)]
    requires (a == tx.from ==> k == i) && (a == tx.to ==> k == j)
    ensures Moves(ViewOf(s[k], a), ViewOf(t[k], a), EffectOf(tx, a))
  {
    if k == i {
      DebitMoves(s[i], tx, a);
    } else if k == j {
      CreditMoves(s[j], tx, a);
    } else {
      StayPut(s[k], tx, a);
    }
  }

  lemma StayPut(s: ShardState, tx: Transaction, a: Address)
    requires a != tx.from && a != tx.to
    ensures Moves(ViewOf(s, a), ViewOf(s, a), EffectOf(tx, a))
  {
  }

  lemma DebitMoves(s: ShardState, tx: Transaction, a: Address)
    requires tx.from in s.accounts && s.accounts[tx.from].balance >= tx.amount && tx.nonce == NonceOf(s, tx.from)
    requires a != tx.to
    ensures Moves(ViewOf(s, a), ViewOf(Debit(s, tx), a), EffectOf(tx, a))
  {
  }

  lemma CreditMoves(s: ShardState, tx: Transaction, a: Address)
    requires BalanceOf(s, tx.to) + tx.amount <= U64_MAX && a != tx.from
    ensures Moves(ViewOf(s, a), ViewOf(Credit(s, tx.to, tx.amount), a), EffectOf(tx, a))
  {
  }

  lemma RoomForCredit(shards: seq<ShardState>, i: nat, j: nat, tx: Transaction)
    requires i < |shards| && j < |shards| && i != j && Supply(shards) <= U64_MAX
    requires tx.from in shards[i].accounts && shards[i].accounts[tx.from].balance >= tx.amount
    ensures BalanceOf(shards[j], tx.to) + tx.amount <= U64_MAX
  {
    var debited := shards[i := Debit(shards[i], tx)];
    ShardTotalBound(shards, i);
    DebitTotal(shards[i], tx);
    SupplyUpdate(shards, i, debited[i]);
    ShardTotalBound(debited, j);
    BalanceBound(debited[j], tx.to);
  }

  /** A pass over a queue does what the transfers it applies do. */
  lemma {:induction false} DrainMoves(c: Crypto, L: LedgerState, entries: seq<CrossTx>)
    requires InOrder(c, L) && EntriesOk(c, |L.shards|, entries) && Supply(L.shards) <= U64_MAX && AllPlaced(L, entries)
    ensures Ahead(c, L.shards, Drain(c, L, entries).ledger.shards, Drain(c, L, entries).applied)
  {
    if entries == [] {
      AheadOfNothing(c, L.shards);
    } else {
      var front, e := entries[..|entries| - 1], entries[|entries| - 1];
      DrainMoves(c, L, front);
      DrainIsSafe(c, L, front);
      var prev := Drain(c, L, front);
      assert EntryOk(c, |L.shards|, e);
      CommitIsAtomic(c, prev.ledger, e);
      if e.key !in prev.ledger.keys && Payable(c, prev.ledger, e) {
        TransferMoves(c, prev.ledger, e);
        AheadCompose(c, L.shards, prev.ledger.shards, Transferred(prev.ledger.shards, e), prev.applied, [e.tx]);
      }
    }
  }
}
