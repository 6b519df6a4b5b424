/**
  Payments that may fail. In a ledger whose denominations each fit the word, a payment goes through
  exactly when it is positive and covered, and one that does not go through changes nothing.
 */
module DexPayments {
  import opened Sums
  import opened PoolMath
  import opened TokenLedger

  function Pay(b: TokenBook, p: Payment): Moved {
    Transfer(b, p.denom, p.from, p.to, p.amount)
  }

  lemma PayOneMore(b: TokenBook, payments: seq<Payment>, p: Payment)
    ensures PayAll(b, payments + [p]) == if PayAll(b, payments).ok then Pay(PayAll(b, payments).book, p) else PayAll(b, payments)
  {
    assert (payments + [p])[..|payments|] == payments;
  }

  lemma PayOne(b: TokenBook, p: Payment)
    ensures PayAll(b, [p]) == Pay(b, p)
  {
    assert [p][..0] == [];
  }

  lemma PayTwo(b: TokenBook, p: Payment, q: Payment)
    ensures PayAll(b, [p, q]) == if Pay(b, p).ok then Pay(Pay(b, p).book, q) else Pay(b, p)
  {
    PayOne(b, p);
    assert [p, q] == [p] + [q];
    PayOneMore(b, [p], q);
  }

  // ---------------------------------------------------------------- which payments go through

  ghost predicate WithinWord(b: TokenBook) {
    forall denom :: DenomSum(b, denom) <= U128_MAX
  }

  /** Two books with the same tokens and the same total of every denomination. */
  ghost predicate SameTotals(b: TokenBook, b': TokenBook) {
    b'.tokens == b.tokens && forall denom :: DenomSum(b', denom) == DenomSum(b, denom)
  }

  lemma TwoHolders(b: TokenBook, denom: string, from: string, to: string)
    requires from != to
    ensures BalanceOf(b, denom, from) + BalanceOf(b, denom, to) <= DenomSum(b, denom)
  {
    var m := Holdings(b, denom);
    if (denom, from) in b.balances && (denom, to) in b.balances {
      MapSumRemove(m, (denom, from));
      MapSumRemove(m - {(denom, from)}, (denom, to));
    } else {
      HolderBound(b, denom, from);
      HolderBound(b, denom, to);
    }
  }

  lemma PaymentGoesThrough(b: TokenBook, p: Payment)
    requires KnownDenoms(b) && WithinWord(b)
    ensures Pay(b, p).ok <==> 0 < p.amount <= BalanceOf(b, p.denom, p.from)
    ensures !Pay(b, p).ok ==> Pay(b, p).book == b
  {
    HolderBound(b, p.denom, p.from);
    if p.from != p.to {
      TwoHolders(b, p.denom, p.from, p.to);
    }
    assert DenomSum(b, p.denom) <= U128_MAX;
  }

  lemma PaymentKeepsTotals(b: TokenBook, p: Payment)
    requires KnownDenoms(b) && WithinWord(b)
    ensures SameTotals(b, Pay(b, p).book) && KnownDenoms(Pay(b, p).book) && WithinWord(Pay(b, p).book)
  {
    PaymentGoesThrough(b, p);
    TransferKeepsDenoms(b, p.denom, p.from, p.to, p.amount);
    TransferConserves(b, p.denom, p.from, p.to, p.amount, p.denom);
    forall denom ensures DenomSum(Pay(b, p).book, denom) == DenomSum(b, denom) {
      TransferConserves(b, p.denom, p.from, p.to, p.amount, denom);
    }
  }

  lemma {:induction false} PaymentsKeepTotals(b: TokenBook, payments: seq<Payment>)
    requires KnownDenoms(b) && WithinWord(b)
    ensures var b' := PayAll(b, payments).book; SameTotals(b, b') && KnownDenoms(b') && WithinWord(b')
  {
    if payments != [] {
      var n := |payments| - 1;
      PaymentsKeepTotals(b, payments[..n]);
      PaymentKeepsTotals(PayAll(b, payments[..n]).book, payments[n]);
    }
  }

  // ---------------------------------------------------------------- whose balances move

  /** A payment between two holders, or none at all. */
  lemma PaymentEffect(b: TokenBook, p: Payment)
    requires KnownDenoms(b) && WithinWord(b) && p.from != p.to
    ensures var b', paid := Pay(b, p).book, if Pay(b, p).ok then p.amount else 0;
            && BalanceOf(b', p.denom, p.from) == BalanceOf(b, p.denom, p.from) - paid
            && BalanceOf(b', p.denom, p.to) == BalanceOf(b, p.denom, p.to) + paid
            && forall d, h :: (d, h) != (p.denom, p.from) && (d, h) != (p.denom, p.to) ==> BalanceOf(b', d, h) == BalanceOf(b, d, h)
  {
    PaymentGoesThrough(b, p);
    if Pay(b, p).ok {
      TransferMoves(b, p.denom, p.from, p.to, p.amount);
    }
  }

  /** Whoever is no party to any of the payments keeps every balance, whatever goes through. */
  lemma {:induction false} StrangersKeep(b: TokenBook, payments: seq<Payment>, h: string)
    requires forall i :: 0 <= i < |payments| ==> payments[i].from != h && payments[i].to != h
    ensures forall d :: BalanceOf(PayAll(b, payments).book, d, h) == BalanceOf(b, d, h)
  {
    if payments != [] {
      StrangersKeep(b, payments[..|payments| - 1], h);
    }
  }

  // ---------------------------------------------------------------- net effects

  /** What a list of payments adds to one holder's balance in one denomination. */
  function Net(payments: seq<Payment>, denom: string, holder: string): int {
    if payments == [] then 0 else
      var p := payments[|payments| - 1];
      Net(payments[..|payments| - 1], denom, holder)
      + (if p.denom == denom && p.to == holder then p.amount else 0)
      - (if p.denom == denom && p.from == holder then p.amount else 0)
  }

  lemma {:induction false} PaymentsMove(b: TokenBook, payments: seq<Payment>, denom: string, holder: string)
    requires PayAll(b, payments).ok
    ensures BalanceOf(PayAll(b, payments).book, denom, holder) == BalanceOf(b, denom, holder) + Net(payments, denom, holder)
  {
    if payments != [] {
      PaymentsMove(b, payments[..|payments| - 1], denom, holder);
    }
  }

  lemma {:induction false} NetConcat(l: seq<Payment>, m: seq<Payment>, denom: string, holder: string)
    ensures Net(l + m, denom, holder) == Net(l, denom, holder) + Net(m, denom, holder)
    decreases |m|
  {
    if m == [] {
      assert l + m == l;
    } else {
      assert (l + m)[..|l + m| - 1] == l + m[..|m| - 1];
      NetConcat(l, m[..|m| - 1], denom, holder);
    }
  }
}
