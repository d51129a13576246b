/** The coin packs offered in the shop and the purchase amounts they allow. */
module ShopPacks {
  datatype CoinPack = CoinPack(name: string, priceUsd: string, baseCoins: nat, bonusCoins: nat, featured: bool)

  const CoinPacks: seq<CoinPack> := [
    CoinPack("Starter Pouch", "$0.99", 100, 0, false),
    CoinPack("Trailblazer Stash", "$4.99", 500, 0, false),
    CoinPack("Sheriff Bundle", "$9.99", 1000, 100, true),
    CoinPack("Legendary Cache", "$49.99", 5000, 500, false),
    CoinPack("Mythic Vault", "$99.99", 10000, 1000, false)
  ]

  /** What one purchase of the pack credits. */
  function PackTotal(pack: CoinPack): nat
  {
    pack.baseCoins + pack.bonusCoins
  }

  /** `ALLOWED_COIN_PURCHASE_AMOUNTS`: the set built from the packs' totals. */
  function AllowedAmounts(packs: seq<CoinPack>): set<int>
  {
    if packs == [] then {} else {PackTotal(packs[0]) as int} + AllowedAmounts(packs[1..])
  }

  /** An amount is allowed exactly when some pack credits it. */
  lemma {:induction false} AllowedIff(packs: seq<CoinPack>, amount: int)
    ensures amount in AllowedAmounts(packs) <==> exists i :: 0 <= i < |packs| && PackTotal(packs[i]) == amount
  {
    if packs != [] {
      AllowedIff(packs[1..], amount);
      if exists i :: 0 <= i < |packs| && PackTotal(packs[i]) == amount {
        var i :| 0 <= i < |packs| && PackTotal(packs[i]) == amount;
        if i > 0 {
          assert PackTotal(packs[1..][i - 1]) == amount;
        }
      }
      if exists i :: 0 <= i < |packs| - 1 && PackTotal(packs[1..][i]) == amount {
        var i :| 0 <= i < |packs| - 1 && PackTotal(packs[1..][i]) == amount;
        assert PackTotal(packs[i + 1]) == amount;
      }
    }
  }

  /** The five packs with their coins, and the one pack marked as featured. */
  lemma PacksAsListed()
    ensures |CoinPacks| == 5
    ensures [PackTotal(CoinPacks[0]), PackTotal(CoinPacks[1]), PackTotal(CoinPacks[2]),
      PackTotal(CoinPacks[3]), PackTotal(CoinPacks[4])] == [100, 500, 1100, 5500, 11000]
    ensures forall i :: 0 <= i < |CoinPacks| && CoinPacks[i].featured ==> CoinPacks[i].name == "Sheriff Bundle"
    ensures exists i :: 0 <= i < |CoinPacks| && CoinPacks[i].featured
  {
    assert CoinPacks[2].featured;
  }

  /** The allowed amounts are exactly the five pack totals; base coins alone, where a pack adds
      a bonus, are not among them. */
  lemma AllowedAmountsExactly()
    ensures AllowedAmounts(CoinPacks) == {100, 500, 1100, 5500, 11000}
    ensures 1000 !in AllowedAmounts(CoinPacks) && 5000 !in AllowedAmounts(CoinPacks)
    ensures 10000 !in AllowedAmounts(CoinPacks)
  {
    assert CoinPacks[1..][1..][1..][1..][1..] == [];
  }
}
