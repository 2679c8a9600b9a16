/** Sums of sequences of amounts, and how they change with the sequence. */
module Sums {
  import opened Types

  function Sum(amounts: seq<nat>): nat {
    if amounts == [] then 0 else amounts[0] + Sum(amounts[1..])
  }

  lemma SumNone()
    ensures Sum([]) == 0
  {
  }

  lemma {:induction false} SumSplit(amounts: seq<nat>, k: nat)
    requires k <= |amounts|
    ensures Sum(amounts) == Sum(amounts[..k]) + Sum(amounts[k..])
  {
    if k > 0 {
      SumSplit(amounts[1..], k - 1);
      assert amounts[..k][1..] == amounts[1..][..k - 1];
    }
  }

  lemma SumSnoc(amounts: seq<nat>, k: nat)
    requires k < |amounts|
    ensures Sum(amounts[..k + 1]) == Sum(amounts[..k]) + amounts[k]
  {
    SumSplit(amounts[..k + 1], k);
    assert amounts[..k + 1][..k] == amounts[..k];
    assert amounts[..k + 1][k..] == [amounts[k]];
  }

  lemma SumAppend(amounts: seq<nat>, x: nat)
    ensures Sum(amounts + [x]) == Sum(amounts) + x
  {
    SumSplit(amounts + [x], |amounts|);
    assert (amounts + [x])[..|amounts|] == amounts;
    assert (amounts + [x])[|amounts|..] == [x];
  }

  lemma SumConcat(a: seq<nat>, b: seq<nat>)
    ensures Sum(a + b) == Sum(a) + Sum(b)
  {
    SumSplit(a + b, |a|);
    assert (a + b)[..|a|] == a && (a + b)[|a|..] == b;
  }

  lemma {:induction false} SumZeros(amounts: seq<nat>)
    requires forall i :: 0 <= i < |amounts| ==> amounts[i] == 0
    ensures Sum(amounts) == 0
  {
    if amounts != [] {
      SumZeros(amounts[1..]);
    }
  }

  /** Exactly the coins of a denomination count towards its sum. */
  lemma {:induction false} SumInDenom(coins: seq<Coin>, denom: string)
    ensures Sum(InDenom(coins, denom)) == Sum(CoinAmounts(Only(coins, denom)))
  {
    if coins == [] {
      assert InDenom(coins, denom) == CoinAmounts(coins);
    } else {
      hide CoinAmounts;
      var rest := Only(coins[1..], denom);
      SumInDenom(coins[1..], denom);
      assert InDenom(coins, denom)[1..] == InDenom(coins[1..], denom);
      if coins[0].denom == denom {
        assert Only(coins, denom) == [coins[0]] + rest;
        SumCoinsFirst(coins[0], rest);
      } else {
        assert Only(coins, denom) == rest;
      }
    }
  }

  lemma SumCoinsFirst(c: Coin, rest: seq<Coin>)
    ensures Sum(CoinAmounts([c] + rest)) == c.amount + Sum(CoinAmounts(rest))
  {
    assert CoinAmounts([c] + rest)[1..] == CoinAmounts(rest);
  }

  lemma SumInDenomAppend(coins: seq<Coin>, c: Coin, denom: string)
    ensures Sum(InDenom(coins + [c], denom)) ==
            Sum(InDenom(coins, denom)) + (if c.denom == denom then c.amount else 0)
  {
    var x := if c.denom == denom then c.amount else 0;
    assert InDenom(coins + [c], denom) == InDenom(coins, denom) + [x];
    SumAppend(InDenom(coins, denom), x);
  }

  lemma SumUpdate(amounts: seq<nat>, k: nat, x: nat)
    requires k < |amounts|
    ensures Sum(amounts[k := x]) + amounts[k] == Sum(amounts) + x
  {
    SumSplit(amounts, k);
    SumSplit(amounts[k := x], k);
    assert amounts[k := x][..k] == amounts[..k];
    assert amounts[k := x][k..] == [x] + amounts[k + 1..];
  }

  lemma SumRemove(amounts: seq<nat>, k: nat)
    requires k < |amounts|
    ensures Sum(amounts[..k] + amounts[k + 1..]) + amounts[k] == Sum(amounts)
  {
    var rest := amounts[..k] + amounts[k + 1..];
    SumSplit(amounts, k);
    SumSplit(rest, k);
    assert rest[..k] == amounts[..k];
    assert rest[k..] == amounts[k + 1..];
  }
}
