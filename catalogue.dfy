/** The card catalogue (the entries of `cards.json`) and the three views that list it:
    the home inventory, the cards page client and the stand-alone cards page. All three sort
    by rarity rank and then by name, and differ in what they keep. */
module Catalogue {
  import opened Common

  datatype AbilityDef = AbilityDef(name: string, abilityType: string, cooldown: Option<int>, description: string)

  datatype Stats = Stats(attack: Option<int>, hp: Option<int>)

  /** One entry of `cards.json`; optional JSON fields are `Option`s, and a missing
      `unlocked` flag reads as `false`. */
  datatype CardDef = CardDef(
    id: string,
    name: string,
    cardType: string,
    rarity: string,
    description: string,
    unlocked: bool,
    stats: Option<Stats>,
    abilities: Option<seq<AbilityDef>>,
    imagePath: Option<string>,
    voiceLinePath: Option<string>,
    history: Option<string>)

  /** The card shape the home page hands to the loadout editor. */
  datatype InventoryCard = InventoryCard(id: string, name: string, rarity: string, cardType: string, imageSrc: string)

  const DefaultImage: string := "/card.png"

  /** `rarityOrder[rarity] ?? 99`. */
  function RarityRank(rarity: string): (rank: nat)
    ensures rank == 0 <==> rarity == "Ultra Rare"
    ensures rank == 1 <==> rarity == "Rare"
    ensures rank == 2 <==> rarity == "Common"
    ensures rank <= 2 || rank == 99
  {
    if rarity == "Ultra Rare" then 0
    else if rarity == "Rare" then 1
    else if rarity == "Common" then 2
    else 99
  }

  /** `localeCompare` is locale-dependent; the model takes the name order as a parameter and
      asks only that it be a total preorder (ties between different names are allowed). */
  ghost predicate IsTotalPreorder(leq: (string, string) -> bool)
  {
    && (forall a, b :: leq(a, b) || leq(b, a))
    && (forall a, b, c :: leq(a, b) && leq(b, c) ==> leq(a, c))
  }

  /** The comparator of the three pages: rarity rank first, then name. */
  predicate CardLeq(a: CardDef, b: CardDef, leq: (string, string) -> bool)
  {
    RarityRank(a.rarity) < RarityRank(b.rarity)
    || (RarityRank(a.rarity) == RarityRank(b.rarity) && leq(a.name, b.name))
  }

  ghost predicate Sorted(s: seq<CardDef>, leq: (string, string) -> bool)
  {
    forall i, j :: 0 <= i < j < |s| ==> CardLeq(s[i], s[j], leq)
  }

  /** Places `c` before the first element it is not after; equal elements keep `c` first. */
  function Insert(c: CardDef, s: seq<CardDef>, leq: (string, string) -> bool): seq<CardDef>
  {
    if s == [] || CardLeq(c, s[0], leq) then [c] + s else [s[0]] + Insert(c, s[1..], leq)
  }

  /** `Array.prototype.sort` with the pages' comparator, as an insertion sort. */
  function SortCards(s: seq<CardDef>, leq: (string, string) -> bool): seq<CardDef>
  {
    if s == [] then [] else Insert(s[0], SortCards(s[1..], leq), leq)
  }

  lemma CardLeqTotal(a: CardDef, b: CardDef, leq: (string, string) -> bool)
    requires IsTotalPreorder(leq)
    ensures CardLeq(a, b, leq) || CardLeq(b, a, leq)
  {
    assert leq(a.name, b.name) || leq(b.name, a.name);
  }

  lemma CardLeqTrans(a: CardDef, b: CardDef, c: CardDef, leq: (string, string) -> bool)
    requires IsTotalPreorder(leq)
    requires CardLeq(a, b, leq) && CardLeq(b, c, leq)
    ensures CardLeq(a, c, leq)
  {
    if RarityRank(a.rarity) == RarityRank(b.rarity) == RarityRank(c.rarity) {
      assert leq(a.name, b.name) && leq(b.name, c.name);
    }
  }

  lemma {:induction false} InsertContents(c: CardDef, s: seq<CardDef>, leq: (string, string) -> bool)
    ensures multiset(Insert(c, s, leq)) == multiset(s) + multiset{c}
    ensures forall x :: x in Insert(c, s, leq) <==> x == c || x in s
  {
    if !(s == [] || CardLeq(c, s[0], leq)) {
      InsertContents(c, s[1..], leq);
      assert s == [s[0]] + s[1..];
    }
  }

  lemma {:induction false} InsertSorted(c: CardDef, s: seq<CardDef>, leq: (string, string) -> bool)
    requires IsTotalPreorder(leq)
    requires Sorted(s, leq)
    ensures Sorted(Insert(c, s, leq), leq)
  {
    if s == [] || CardLeq(c, s[0], leq) {
      var r := [c] + s;
      forall i, j | 0 <= i < j < |r| ensures CardLeq(r[i], r[j], leq) {
        if i == 0 && j > 1 {
          CardLeqTrans(c, s[0], s[j - 1], leq);
        }
      }
    } else {
      InsertSorted(c, s[1..], leq);
      InsertContents(c, s[1..], leq);
      CardLeqTotal(c, s[0], leq);
      var t := Insert(c, s[1..], leq);
      var r := [s[0]] + t;
      forall j | 0 <= j < |t| ensures CardLeq(s[0], t[j], leq) {
        assert t[j] in t;
        if t[j] != c {
          var k :| 0 <= k < |s[1..]| && s[1..][k] == t[j];
          assert s[k + 1] == t[j];
        }
      }
      forall i, j | 0 <= i < j < |r| ensures CardLeq(r[i], r[j], leq) {
        if i == 0 {
          assert r[j] == t[j - 1];
        } else {
          assert r[i] == t[i - 1] && r[j] == t[j - 1];
        }
      }
    }
  }

  /** The sort returns its input, reordered by rarity rank and then by name. */
  lemma {:induction false} SortCardsCorrect(s: seq<CardDef>, leq: (string, string) -> bool)
    requires IsTotalPreorder(leq)
    ensures Sorted(SortCards(s, leq), leq)
    ensures multiset(SortCards(s, leq)) == multiset(s)
  {
    if s != [] {
      SortCardsCorrect(s[1..], leq);
      InsertSorted(s[0], SortCards(s[1..], leq), leq);
      InsertContents(s[0], SortCards(s[1..], leq), leq);
      assert s == [s[0]] + s[1..];
    }
  }

  predicate UnlockedOrOwned(c: CardDef, owned: seq<string>)
  {
    c.unlocked || c.id in owned
  }

  function FilterUnlockedOrOwned(s: seq<CardDef>, owned: seq<string>): seq<CardDef>
  {
    if s == [] then []
    else (if UnlockedOrOwned(s[0], owned) then [s[0]] else []) + FilterUnlockedOrOwned(s[1..], owned)
  }

  function FilterUnlocked(s: seq<CardDef>): seq<CardDef>
  {
    if s == [] then [] else (if s[0].unlocked then [s[0]] else []) + FilterUnlocked(s[1..])
  }

  /** A filter keeps, of each card, every copy the predicate accepts and none of the others. */
  lemma {:induction false} FilterUnlockedOrOwnedCount(s: seq<CardDef>, owned: seq<string>, c: CardDef)
    ensures multiset(FilterUnlockedOrOwned(s, owned))[c]
         == if UnlockedOrOwned(c, owned) then multiset(s)[c] else 0
  {
    if s != [] {
      FilterUnlockedOrOwnedCount(s[1..], owned, c);
      assert s == [s[0]] + s[1..];
    }
  }

  lemma {:induction false} FilterUnlockedCount(s: seq<CardDef>, c: CardDef)
    ensures multiset(FilterUnlocked(s))[c] == if c.unlocked then multiset(s)[c] else 0
  {
    if s != [] {
      FilterUnlockedCount(s[1..], c);
      assert s == [s[0]] + s[1..];
    }
  }

  /** Filtering a sorted list leaves it sorted (the result is a subsequence). */
  lemma {:induction false} FilterUnlockedOrOwnedSorted(s: seq<CardDef>, owned: seq<string>, leq: (string, string) -> bool)
    requires Sorted(s, leq)
    ensures Sorted(FilterUnlockedOrOwned(s, owned), leq)
    ensures forall x :: x in FilterUnlockedOrOwned(s, owned) ==> x in s
  {
    if s != [] {
      FilterUnlockedOrOwnedSorted(s[1..], owned, leq);
      var t := FilterUnlockedOrOwned(s[1..], owned);
      if UnlockedOrOwned(s[0], owned) {
        var r := [s[0]] + t;
        forall i, j | 0 <= i < j < |r| ensures CardLeq(r[i], r[j], leq) {
          if i == 0 {
            assert r[j] in s[1..];
          }
        }
      }
    }
  }

  lemma {:induction false} FilterUnlockedSorted(s: seq<CardDef>, leq: (string, string) -> bool)
    requires Sorted(s, leq)
    ensures Sorted(FilterUnlocked(s), leq)
    ensures forall x :: x in FilterUnlocked(s) ==> x in s
  {
    if s != [] {
      FilterUnlockedSorted(s[1..], leq);
      var t := FilterUnlocked(s[1..]);
      if s[0].unlocked {
        var r := [s[0]] + t;
        forall i, j | 0 <= i < j < |r| ensures CardLeq(r[i], r[j], leq) {
          if i == 0 {
            assert r[j] in s[1..];
          }
        }
      }
    }
  }

  // ---------------------------------------------------------------------------------------
  // Home page: the inventory handed to the loadout editor.

  function ToInventoryCard(c: CardDef): InventoryCard
  {
    InventoryCard(c.id, c.name, c.rarity, c.cardType, c.imagePath.GetOr(DefaultImage))
  }

  function MapToInventory(s: seq<CardDef>): (r: seq<InventoryCard>)
    ensures |r| == |s|
    ensures forall i :: 0 <= i < |s| ==> r[i] == ToInventoryCard(s[i])
  {
    if s == [] then [] else [ToInventoryCard(s[0])] + MapToInventory(s[1..])
  }

  /** The home page's `inventoryCards`: keep unlocked or owned cards, sort, project. */
  function InventoryCards(defs: seq<CardDef>, owned: seq<string>, leq: (string, string) -> bool): seq<InventoryCard>
  {
    MapToInventory(SortCards(FilterUnlockedOrOwned(defs, owned), leq))
  }

  /** The inventory holds exactly the unlocked or owned cards, each once per catalogue entry,
      ordered by rarity rank and then by name, with the image defaulting to `/card.png`. */
  lemma InventoryCardsCorrect(defs: seq<CardDef>, owned: seq<string>, leq: (string, string) -> bool)
    requires IsTotalPreorder(leq)
    ensures var sorted := SortCards(FilterUnlockedOrOwned(defs, owned), leq);
      && InventoryCards(defs, owned, leq) == MapToInventory(sorted)
      && Sorted(sorted, leq)
      && (forall c :: multiset(sorted)[c] == if UnlockedOrOwned(c, owned) then multiset(defs)[c] else 0)
    ensures forall i, j :: 0 <= i < j < |InventoryCards(defs, owned, leq)| ==>
      var a := InventoryCards(defs, owned, leq)[i];
      var b := InventoryCards(defs, owned, leq)[j];
      RarityRank(a.rarity) < RarityRank(b.rarity)
      || (RarityRank(a.rarity) == RarityRank(b.rarity) && leq(a.name, b.name))
    ensures forall card :: card in InventoryCards(defs, owned, leq) ==>
      exists c :: c in defs && UnlockedOrOwned(c, owned) && card == ToInventoryCard(c)
  {
    var filtered := FilterUnlockedOrOwned(defs, owned);
    var sorted := SortCards(filtered, leq);
    SortCardsCorrect(filtered, leq);
    forall c ensures multiset(sorted)[c] == if UnlockedOrOwned(c, owned) then multiset(defs)[c] else 0 {
      FilterUnlockedOrOwnedCount(defs, owned, c);
    }
    var inv := InventoryCards(defs, owned, leq);
    forall i, j | 0 <= i < j < |inv|
      ensures RarityRank(inv[i].rarity) < RarityRank(inv[j].rarity)
        || (RarityRank(inv[i].rarity) == RarityRank(inv[j].rarity) && leq(inv[i].name, inv[j].name))
    {
      assert CardLeq(sorted[i], sorted[j], leq);
    }
    forall card | card in inv
      ensures exists c :: c in defs && UnlockedOrOwned(c, owned) && card == ToInventoryCard(c)
    {
      var i :| 0 <= i < |inv| && inv[i] == card;
      var c := sorted[i];
      assert c in multiset(sorted);
      assert multiset(sorted)[c] > 0;
      assert UnlockedOrOwned(c, owned) && c in multiset(defs);
    }
  }

  // ---------------------------------------------------------------------------------------
  // Cards page client: sort everything, then show the unlocked or owned cards.

  function VisibleOwnedCards(defs: seq<CardDef>, owned: seq<string>, leq: (string, string) -> bool): seq<CardDef>
  {
    FilterUnlockedOrOwned(SortCards(defs, leq), owned)
  }

  /** The rendered cards are exactly the unlocked or owned ones (so every rendered card shows as
      unlocked), still in rarity-then-name order. */
  lemma VisibleOwnedCardsCorrect(defs: seq<CardDef>, owned: seq<string>, leq: (string, string) -> bool)
    requires IsTotalPreorder(leq)
    ensures Sorted(VisibleOwnedCards(defs, owned, leq), leq)
    ensures forall c :: (multiset(VisibleOwnedCards(defs, owned, leq))[c]
      == if UnlockedOrOwned(c, owned) then multiset(defs)[c] else 0)
    ensures forall c :: c in VisibleOwnedCards(defs, owned, leq) ==> UnlockedOrOwned(c, owned)
  {
    var sorted := SortCards(defs, leq);
    SortCardsCorrect(defs, leq);
    FilterUnlockedOrOwnedSorted(sorted, owned, leq);
    forall c ensures multiset(VisibleOwnedCards(defs, owned, leq))[c]
      == if UnlockedOrOwned(c, owned) then multiset(defs)[c] else 0
    {
      FilterUnlockedOrOwnedCount(sorted, owned, c);
    }
    forall c | c in VisibleOwnedCards(defs, owned, leq) ensures UnlockedOrOwned(c, owned) {
      FilterUnlockedOrOwnedCount(sorted, owned, c);
      assert multiset(VisibleOwnedCards(defs, owned, leq))[c] > 0;
    }
  }

  // ---------------------------------------------------------------------------------------
  // Stand-alone cards page: sort everything, then show only the `unlocked` cards.

  function VisibleUnlockedCards(defs: seq<CardDef>, leq: (string, string) -> bool): seq<CardDef>
  {
    FilterUnlocked(SortCards(defs, leq))
  }

  /** Only cards flagged `unlocked` are shown (ownership plays no part), all of them, in
      rarity-then-name order. */
  lemma VisibleUnlockedCardsCorrect(defs: seq<CardDef>, leq: (string, string) -> bool)
    requires IsTotalPreorder(leq)
    ensures Sorted(VisibleUnlockedCards(defs, leq), leq)
    ensures forall c :: (multiset(VisibleUnlockedCards(defs, leq))[c]
      == if c.unlocked then multiset(defs)[c] else 0)
  {
    var sorted := SortCards(defs, leq);
    SortCardsCorrect(defs, leq);
    FilterUnlockedSorted(sorted, leq);
    forall c ensures multiset(VisibleUnlockedCards(defs, leq))[c] == if c.unlocked then multiset(defs)[c] else 0 {
      FilterUnlockedCount(sorted, c);
    }
  }

  // ---------------------------------------------------------------------------------------
  // The flip state shared by both cards views: at most one card (an `Option`) shows its history.

  class FlipState {
    var flippedCardId: Option<string>

    constructor ()
      ensures flippedCardId == None
    {
      flippedCardId := None;
    }

    /** The stand-alone page's click: the same card flips back, any other card becomes the
        flipped one. */
    method ToggleFlip(cardId: string)
      modifies this
      ensures old(flippedCardId) == Some(cardId) ==> flippedCardId == None
      ensures old(flippedCardId) != Some(cardId) ==> flippedCardId == Some(cardId)
    {
      flippedCardId := if flippedCardId == Some(cardId) then None else Some(cardId);
    }

    /** The client page's click: toggles like `ToggleFlip` and returns the voice line played,
        which is the card's line when the card turns to its history side and the path is a
        non-empty string, and nothing otherwise. */
    method HandleCardFlip(card: CardDef) returns (played: Option<string>)
      modifies this
      ensures old(flippedCardId) == Some(card.id) ==> flippedCardId == None && played == None
      ensures old(flippedCardId) != Some(card.id) ==> flippedCardId == Some(card.id)
      ensures played.Some? <==> old(flippedCardId) != Some(card.id) && card.voiceLinePath.Some? && card.voiceLinePath.value != ""
      ensures played.Some? ==> played == card.voiceLinePath
    {
      var flippingToHistory := flippedCardId != Some(card.id);
      played := None;
      if flippingToHistory && card.voiceLinePath.Some? && card.voiceLinePath.value != "" {
        played := card.voiceLinePath;
      }
      ToggleFlip(card.id);
    }
  }
}
