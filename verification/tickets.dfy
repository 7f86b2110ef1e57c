/** The page's local ticket counter and its list of falling coins. */
module Tickets {

  /** A coin of the falling-coin animation shown when the ticket count is raised: an id and a horizontal position. */
  datatype Coin = Coin(id: real, left: real)

  /** `Math.max(1, prev + amount)`: the new ticket count. */
  function AdjustedCount(prev: int, amount: int): (count: int)
    ensures count >= 1
    ensures prev + amount >= 1 ==> count == prev + amount
    ensures prev + amount < 1 ==> count == 1
  {
    if prev + amount >= 1 then prev + amount else 1
  }

  /** The ticket count after adjusting `start` by each amount in turn. */
  function CountAfter(start: int, amounts: seq<int>): int
    decreases |amounts|
  {
    if amounts == [] then start else CountAfter(AdjustedCount(start, amounts[0]), amounts[1..])
  }

  function Sum(amounts: seq<int>): int
    decreases |amounts|
  {
    if amounts == [] then 0 else amounts[0] + Sum(amounts[1..])
  }

  /** However many adjustments are made, the count never drops below one. */
  lemma {:induction false} CountAfterIsPositive(start: int, amounts: seq<int>)
    requires start >= 1
    ensures CountAfter(start, amounts) >= 1
    decreases |amounts|
  {
    if amounts != [] {
      CountAfterIsPositive(AdjustedCount(start, amounts[0]), amounts[1..]);
    }
  }

  /**
   * As long as no running total would take the count below one, the clamp never
   * applies and the count is the start plus the sum of the amounts.
   */
  lemma {:induction false} CountAfterIsRunningSum(start: int, amounts: seq<int>)
    requires forall i :: 0 < i <= |amounts| ==> start + Sum(amounts[..i]) >= 1
    ensures CountAfter(start, amounts) == start + Sum(amounts)
    decreases |amounts|
  {
    if amounts != [] {
      var rest := amounts[1..];
      assert amounts[..1] == [amounts[0]];
      assert Sum(amounts[..1]) == amounts[0] + Sum([]);
      var next := start + amounts[0];
      forall i | 0 < i <= |rest|
        ensures next + Sum(rest[..i]) >= 1
      {
        assert amounts[..i + 1][1..] == rest[..i];
        assert Sum(amounts[..i + 1]) == amounts[0] + Sum(rest[..i]);
      }
      CountAfterIsRunningSum(next, rest);
    }
  }

  /** `prevCoins.filter((coin) => coin.id !== id)`. */
  function WithoutCoin(coins: seq<Coin>, id: real): (kept: seq<Coin>)
    ensures |kept| <= |coins|
    ensures forall c :: c in kept <==> c in coins && c.id != id
    decreases |coins|
  {
    if coins == [] then []
    else (if coins[0].id != id then [coins[0]] else []) + WithoutCoin(coins[1..], id)
  }

  /** Filtering a concatenation filters each part in place: the kept coins stay in their order. */
  lemma {:induction false} WithoutCoinAppend(a: seq<Coin>, b: seq<Coin>, id: real)
    ensures WithoutCoin(a + b, id) == WithoutCoin(a, id) + WithoutCoin(b, id)
    decreases |a|
  {
    if a != [] {
      assert (a + b)[1..] == a[1..] + b;
      WithoutCoinAppend(a[1..], b, id);
    } else {
      assert a + b == b;
    }
  }

  /** Every coin with another id is kept as often as it occurred; those with the id are all dropped. */
  lemma {:induction false} WithoutCoinCounts(coins: seq<Coin>, id: real, c: Coin)
    ensures multiset(WithoutCoin(coins, id))[c] == if c.id == id then 0 else multiset(coins)[c]
    decreases |coins|
  {
    if coins != [] {
      WithoutCoinCounts(coins[1..], id, c);
      assert coins == [coins[0]] + coins[1..];
    }
  }

  /** Removing an id no coin has leaves the list as it was. */
  lemma {:induction false} WithoutAbsentCoin(coins: seq<Coin>, id: real)
    requires forall i :: 0 <= i < |coins| ==> coins[i].id != id
    ensures WithoutCoin(coins, id) == coins
    decreases |coins|
  {
    if coins != [] {
      WithoutAbsentCoin(coins[1..], id);
    }
  }
}
