/** The token balances behind the exchange: transfers, minting and burning, and what they conserve. */
module TokenLedger {
  import opened Common
  import opened Sums
  import opened PoolMath

  datatype TokenInfo = TokenInfo(totalSupply: u128, maxSupply: Option<u128>)

  /** Balances are keyed by denomination and holder. */
  datatype TokenBook = TokenBook(tokens: map<string, TokenInfo>, balances: map<(string, string), u128>)

  datatype Moved = Moved(book: TokenBook, ok: bool)

  function BalanceOf(b: TokenBook, denom: string, holder: string): u128 {
    if (denom, holder) in b.balances then b.balances[(denom, holder)] else 0
  }

  function SetBalance(b: TokenBook, denom: string, holder: string, amount: u128): TokenBook {
    b.(balances := b.balances[(denom, holder) := amount])
  }

  /** The sender is debited before the receiver's overflow check, so that one failure loses the amount. */
  function Transfer(b: TokenBook, denom: string, from: string, to: string, amount: u128): Moved {
    if amount == 0 || denom !in b.tokens || (denom, from) !in b.balances || BalanceOf(b, denom, from) < amount
    then Moved(b, false)
    else
      var debited := SetBalance(b, denom, from, BalanceOf(b, denom, from) - amount);
      if BalanceOf(debited, denom, to) + amount > U128_MAX then Moved(debited, false)
      else Moved(SetBalance(debited, denom, to, BalanceOf(debited, denom, to) + amount), true)
  }

  function Mint(b: TokenBook, denom: string, to: string, amount: u128): Moved {
    if denom !in b.tokens then Moved(b, false) else
      var info := b.tokens[denom];
      if info.totalSupply + amount > U128_MAX
         || (info.maxSupply.Some? && info.totalSupply + amount > info.maxSupply.value)
      then Moved(b, false)
      else
        var supplied := b.(tokens := b.tokens[denom := info.(totalSupply := info.totalSupply + amount)]);
        if BalanceOf(b, denom, to) + amount > U128_MAX then Moved(supplied, false)
        else Moved(SetBalance(supplied, denom, to, BalanceOf(b, denom, to) + amount), true)
  }

  function Burn(b: TokenBook, denom: string, from: string, amount: u128): Moved {
    if amount == 0 || (denom, from) !in b.balances || BalanceOf(b, denom, from) < amount then Moved(b, false)
    else
      var burned := SetBalance(b, denom, from, BalanceOf(b, denom, from) - amount);
      if denom !in b.tokens then Moved(burned, true) else
        var info := b.tokens[denom];
        var supply := if info.totalSupply >= amount then info.totalSupply - amount else 0;
        Moved(burned.(tokens := b.tokens[denom := info.(totalSupply := supply)]), true)
  }

  function CreateLpToken(b: TokenBook, lpDenom: string, poolAddress: string, supply: u128): Moved {
    if lpDenom in b.tokens then Moved(b, false) else
      Moved(SetBalance(b.(tokens := b.tokens[lpDenom := TokenInfo(supply, None)]), lpDenom, poolAddress, supply), true)
  }

  datatype Payment = Payment(denom: string, from: string, to: string, amount: u128)

  /** Payments one after the other, stopping at the first that fails. */
  function PayAll(b: TokenBook, payments: seq<Payment>): Moved {
    if payments == [] then Moved(b, true) else
      var prev := PayAll(b, payments[..|payments| - 1]);
      var p := payments[|payments| - 1];
      if prev.ok then Transfer(prev.book, p.denom, p.from, p.to, p.amount) else prev
  }

  // ---------------------------------------------------------------- sums per denomination

  function Holdings(b: TokenBook, denom: string): map<(string, string), nat> {
    map k | k in b.balances && k.0 == denom :: b.balances[k]
  }

  /** Everything held in one denomination. */
  ghost function DenomSum(b: TokenBook, denom: string): nat {
    MapSum(Holdings(b, denom))
  }

  /** Balances exist only in denominations that exist. */
  ghost predicate KnownDenoms(b: TokenBook) {
    forall k :: k in b.balances ==> k.0 in b.tokens
  }

  lemma SetBalanceSum(b: TokenBook, denom: string, holder: string, amount: u128, other: string)
    ensures DenomSum(SetBalance(b, denom, holder, amount), other)
         == if other == denom then DenomSum(b, denom) - BalanceOf(b, denom, holder) + amount else DenomSum(b, other)
  {
    var b' := SetBalance(b, denom, holder, amount);
    if other == denom {
      assert Holdings(b', denom) == Holdings(b, denom)[(denom, holder) := amount];
      MapSumUpdate(Holdings(b, denom), (denom, holder), amount);
    } else {
      assert Holdings(b', other) == Holdings(b, other);
    }
  }

  lemma SumIgnoresTokens(b: TokenBook, tokens: map<string, TokenInfo>, denom: string)
    ensures DenomSum(b.(tokens := tokens), denom) == DenomSum(b, denom)
  {
  }

  lemma HolderBound(b: TokenBook, denom: string, holder: string)
    ensures BalanceOf(b, denom, holder) <= DenomSum(b, denom)
  {
    if (denom, holder) in b.balances {
      MapSumRemove(Holdings(b, denom), (denom, holder));
    }
  }

  lemma TransferKeepsDenoms(b: TokenBook, denom: string, from: string, to: string, amount: u128)
    requires KnownDenoms(b)
    ensures KnownDenoms(Transfer(b, denom, from, to, amount).book)
  {
  }

  /** A transfer conserves every denomination when it succeeds and creates nothing when it fails. */
  lemma TransferConserves(b: TokenBook, denom: string, from: string, to: string, amount: u128, other: string)
    ensures var m := Transfer(b, denom, from, to, amount);
            && m.book.tokens == b.tokens
            && DenomSum(m.book, other) <= DenomSum(b, other)
            && (m.ok ==> DenomSum(m.book, other) == DenomSum(b, other))
  {
    var m := Transfer(b, denom, from, to, amount);
    if amount > 0 && denom in b.tokens && (denom, from) in b.balances && BalanceOf(b, denom, from) >= amount {
      var left := BalanceOf(b, denom, from) - amount;
      var debited := SetBalance(b, denom, from, left);
      SetBalanceSum(b, denom, from, left, other);
      if m.ok {
        assert m.book == SetBalance(debited, denom, to, BalanceOf(debited, denom, to) + amount);
        SetBalanceSum(debited, denom, to, BalanceOf(debited, denom, to) + amount, other);
      } else {
        assert m.book == debited;
      }
    }
  }

  /** A transfer between two holders moves exactly the amount and nobody else's balance. */
  lemma TransferMoves(b: TokenBook, denom: string, from: string, to: string, amount: u128)
    requires from != to && Transfer(b, denom, from, to, amount).ok
    ensures var b' := Transfer(b, denom, from, to, amount).book;
            && BalanceOf(b, denom, from) >= amount
            && BalanceOf(b', denom, from) == BalanceOf(b, denom, from) - amount
            && BalanceOf(b', denom, to) == BalanceOf(b, denom, to) + amount
            && forall d, h :: (d, h) != (denom, from) && (d, h) != (denom, to) ==> BalanceOf(b', d, h) == BalanceOf(b, d, h)
  {
  }

  lemma {:induction false} PaymentsConserve(b: TokenBook, payments: seq<Payment>, other: string)
    ensures var m := PayAll(b, payments);
            && m.book.tokens == b.tokens && (KnownDenoms(b) ==> KnownDenoms(m.book))
            && DenomSum(m.book, other) <= DenomSum(b, other)
            && (m.ok ==> DenomSum(m.book, other) == DenomSum(b, other))
  {
    if payments != [] {
      PaymentsConserve(b, payments[..|payments| - 1], other);
      var prev := PayAll(b, payments[..|payments| - 1]);
      var p := payments[|payments| - 1];
      if prev.ok {
        TransferConserves(prev.book, p.denom, p.from, p.to, p.amount, other);
        if KnownDenoms(b) {
          TransferKeepsDenoms(prev.book, p.denom, p.from, p.to, p.amount);
        }
      }
    }
  }

  lemma MintSum(b: TokenBook, denom: string, to: string, amount: u128, other: string)
    ensures var m := Mint(b, denom, to, amount);
            && m.book.tokens.Keys == b.tokens.Keys && (KnownDenoms(b) ==> KnownDenoms(m.book))
            && DenomSum(m.book, other) == DenomSum(b, other) + (if m.ok && other == denom then amount else 0)
            && (m.ok ==> forall d, h :: BalanceOf(m.book, d, h) == BalanceOf(b, d, h) + (if (d, h) == (denom, to) then amount else 0))
  {
    if denom in b.tokens {
      var info := b.tokens[denom];
      var tokens := b.tokens[denom := info.(totalSupply := Wrap(info.totalSupply + amount))];
      SumIgnoresTokens(b, tokens, other);
      if Mint(b, denom, to, amount).ok {
        SetBalanceSum(b.(tokens := tokens), denom, to, BalanceOf(b, denom, to) + amount, other);
      }
    }
  }

  lemma BurnSum(b: TokenBook, denom: string, from: string, amount: u128, other: string)
    requires amount > 0 && BalanceOf(b, denom, from) >= amount
    ensures var m := Burn(b, denom, from, amount);
            && m.ok && m.book.tokens.Keys == b.tokens.Keys && (KnownDenoms(b) ==> KnownDenoms(m.book))
            && DenomSum(m.book, other) == DenomSum(b, other) - (if other == denom then amount else 0)
            && forall d, h :: (d, h) != (denom, from) ==> BalanceOf(m.book, d, h) == BalanceOf(b, d, h)
  {
    SetBalanceSum(b, denom, from, BalanceOf(b, denom, from) - amount, other);
    SumIgnoresTokens(SetBalance(b, denom, from, BalanceOf(b, denom, from) - amount), Burn(b, denom, from, amount).book.tokens, other);
  }

  lemma CreateLpSum(b: TokenBook, lpDenom: string, poolAddress: string, supply: u128, other: string)
    requires KnownDenoms(b) && lpDenom !in b.tokens
    ensures var m := CreateLpToken(b, lpDenom, poolAddress, supply);
            && m.ok && m.book.tokens.Keys == b.tokens.Keys + {lpDenom} && KnownDenoms(m.book)
            && DenomSum(m.book, other) == (if other == lpDenom then supply else DenomSum(b, other))
            && forall d, h :: d != lpDenom ==> BalanceOf(m.book, d, h) == BalanceOf(b, d, h)
  {
    var tokens := b.tokens[lpDenom := TokenInfo(supply, None)];
    SumIgnoresTokens(b, tokens, other);
    SetBalanceSum(b.(tokens := tokens), lpDenom, poolAddress, supply, other);
    if other == lpDenom {
      assert Holdings(b, lpDenom) == map[];
    }
  }
}
