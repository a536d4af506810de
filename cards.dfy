/**
 * The part of the collectible-card tables that `get_user_rarity_count` reads:
 * ownership rows (`user_waifus`) and the card catalog (`waifu_cards`), both
 * maintained outside this store.
 */
module Cards {
  import opened Wrappers

  /** One `user_waifus` row: `amount` copies of card `waifuId` owned by `userId`. */
  datatype Ownership = Ownership(userId: int, waifuId: int, amount: int)

  /** The columns of a `waifu_cards` row that the count uses. */
  datatype Card = Card(id: int, rarity: string)

  /** `waifu_cards.id` is the table's primary key: no two catalog entries share it. */
  predicate UniqueIds(cards: seq<Card>)
  {
    forall i, j :: 0 <= i < j < |cards| ==> cards[i].id != cards[j].id
  }

  function Sum(xs: seq<int>): int
  {
    if xs == [] then 0 else xs[0] + Sum(xs[1..])
  }

  lemma {:induction false} SumAppend(a: seq<int>, b: seq<int>)
    ensures Sum(a + b) == Sum(a) + Sum(b)
  {
    if a == [] {
      assert a + b == b;
    } else {
      assert (a + b)[1..] == a[1..] + b;
      SumAppend(a[1..], b);
    }
  }

  /** The join rows that one ownership row yields: one `amount` per catalog entry it matches. */
  function JoinRow(o: Ownership, cards: seq<Card>, user: int, rarity: string): (r: seq<int>)
    ensures forall x :: x in r ==> x == o.amount
    ensures r != [] <==> o.userId == user && exists i :: 0 <= i < |cards| && cards[i].id == o.waifuId && cards[i].rarity == rarity
  {
    if cards == [] then []
    else
      (if o.userId == user && o.waifuId == cards[0].id && cards[0].rarity == rarity then [o.amount] else [])
      + JoinRow(o, cards[1..], user, rarity)
  }

  /**
   * The `amount` column of `user_waifus uw JOIN waifu_cards wc ON uw.waifu_id = wc.id
   * WHERE uw.user_id = ? AND wc.rarity = ?`.
   */
  function Joined(owned: seq<Ownership>, cards: seq<Card>, user: int, rarity: string): (r: seq<int>)
    ensures forall x :: x in r ==> exists i :: 0 <= i < |owned| && owned[i].userId == user && owned[i].amount == x
    ensures r == [] <==> forall i :: 0 <= i < |owned| ==> JoinRow(owned[i], cards, user, rarity) == []
  {
    if owned == [] then []
    else JoinRow(owned[0], cards, user, rarity) + Joined(owned[1..], cards, user, rarity)
  }

  /** SQL's `SUM`: NULL over no rows. */
  function SqlSum(xs: seq<int>): (r: Option<int>)
    ensures r.None? <==> xs == []
    ensures r.Some? ==> r.value == Sum(xs)
  {
    if xs == [] then None else Some(Sum(xs))
  }

  /** `get_user_rarity_count`: the SUM, with NULL turned into 0. */
  function RarityCount(owned: seq<Ownership>, cards: seq<Card>, user: int, rarity: string): (n: int)
    ensures Joined(owned, cards, user, rarity) == [] ==> n == 0
    ensures n == Sum(Joined(owned, cards, user, rarity))
  {
    SqlSum(Joined(owned, cards, user, rarity)).GetOr(0)
  }

  /** The rarity of the first catalog entry with this id, if there is one. */
  function CardRarity(cards: seq<Card>, id: int): (r: Option<string>)
    ensures r.None? <==> forall i :: 0 <= i < |cards| ==> cards[i].id != id
    ensures r.Some? ==> exists i :: 0 <= i < |cards| && cards[i].id == id && cards[i].rarity == r.value
                                    && forall j :: 0 <= j < i ==> cards[j].id != id
  {
    if cards == [] then None
    else if cards[0].id == id then Some(cards[0].rarity)
    else CardRarity(cards[1..], id)
  }

  /**
   * Independent statement of the count: the sum of `amount` over the user's
   * ownership rows whose card is in the catalog with this rarity.
   */
  function OwnedOfRarity(owned: seq<Ownership>, cards: seq<Card>, user: int, rarity: string): int
  {
    if owned == [] then 0
    else
      (if owned[0].userId == user && CardRarity(cards, owned[0].waifuId) == Some(rarity) then owned[0].amount else 0)
      + OwnedOfRarity(owned[1..], cards, user, rarity)
  }

  lemma {:induction false} JoinRowAbsent(o: Ownership, cards: seq<Card>, user: int, rarity: string)
    requires forall i :: 0 <= i < |cards| ==> cards[i].id != o.waifuId
    ensures JoinRow(o, cards, user, rarity) == []
  {
  }

  /** With unique card ids an ownership row joins at most once: with the one card its id names. */
  lemma {:induction false} JoinRowUnique(o: Ownership, cards: seq<Card>, user: int, rarity: string)
    requires UniqueIds(cards)
    ensures JoinRow(o, cards, user, rarity) ==
      if o.userId == user && CardRarity(cards, o.waifuId) == Some(rarity) then [o.amount] else []
  {
    if cards != [] {
      assert UniqueIds(cards[1..]) by {
        forall i, j | 0 <= i < j < |cards[1..]|
          ensures cards[1..][i].id != cards[1..][j].id
        {
          assert cards[1..][i] == cards[i + 1] && cards[1..][j] == cards[j + 1];
        }
      }
      if cards[0].id == o.waifuId {
        forall i | 0 <= i < |cards[1..]|
          ensures cards[1..][i].id != o.waifuId
        {
          assert cards[1..][i] == cards[i + 1];
        }
        JoinRowAbsent(o, cards[1..], user, rarity);
      } else {
        JoinRowUnique(o, cards[1..], user, rarity);
      }
    }
  }

  /** Over a catalog with unique ids, the SQL join-and-sum equals the per-row reference sum. */
  lemma {:induction false} RarityCountByCatalog(owned: seq<Ownership>, cards: seq<Card>, user: int, rarity: string)
    requires UniqueIds(cards)
    ensures RarityCount(owned, cards, user, rarity) == OwnedOfRarity(owned, cards, user, rarity)
  {
    if owned != [] {
      JoinRowUnique(owned[0], cards, user, rarity);
      SumAppend(JoinRow(owned[0], cards, user, rarity), Joined(owned[1..], cards, user, rarity));
      RarityCountByCatalog(owned[1..], cards, user, rarity);
    }
  }

  /** Adding ownership rows adds their count: the count over `a + b` is the count over `a` plus that over `b`. */
  lemma {:induction false} RarityCountAppend(a: seq<Ownership>, b: seq<Ownership>, cards: seq<Card>, user: int, rarity: string)
    ensures RarityCount(a + b, cards, user, rarity) == RarityCount(a, cards, user, rarity) + RarityCount(b, cards, user, rarity)
  {
    if a == [] {
      assert a + b == b;
    } else {
      assert (a + b)[0] == a[0];
      assert (a + b)[1..] == a[1..] + b;
      RarityCountAppend(a[1..], b, cards, user, rarity);
      SumAppend(JoinRow(a[0], cards, user, rarity), Joined(a[1..] + b, cards, user, rarity));
      SumAppend(JoinRow(a[0], cards, user, rarity), Joined(a[1..], cards, user, rarity));
    }
  }

  /** Rows of other users, and cards of other rarities, never contribute. */
  lemma {:induction false} RarityCountNoMatch(owned: seq<Ownership>, cards: seq<Card>, user: int, rarity: string)
    requires UniqueIds(cards)
    requires forall i :: 0 <= i < |owned| ==> owned[i].userId != user || CardRarity(cards, owned[i].waifuId) != Some(rarity)
    ensures RarityCount(owned, cards, user, rarity) == 0
  {
  }

  lemma {:induction false} OwnedOfRarityZero(owned: seq<Ownership>, cards: seq<Card>, user: int, rarity: string)
    requires forall i :: 0 <= i < |owned| ==> owned[i].userId != user || CardRarity(cards, owned[i].waifuId) != Some(rarity)
    ensures OwnedOfRarity(owned, cards, user, rarity) == 0
  {
    if owned != [] {
      OwnedOfRarityZero(owned[1..], cards, user, rarity);
    }
  }

  /** With non-negative amounts the count is never negative. */
  lemma {:induction false} RarityCountNonNegative(owned: seq<Ownership>, cards: seq<Card>, user: int, rarity: string)
    requires forall i :: 0 <= i < |owned| ==> owned[i].amount >= 0
    ensures RarityCount(owned, cards, user, rarity) >= 0
  {
    if owned != [] {
      RarityCountNonNegative(owned[1..], cards, user, rarity);
      JoinRowNonNegative(owned[0], cards, user, rarity);
      SumAppend(JoinRow(owned[0], cards, user, rarity), Joined(owned[1..], cards, user, rarity));
    }
  }

  lemma {:induction false} JoinRowNonNegative(o: Ownership, cards: seq<Card>, user: int, rarity: string)
    requires o.amount >= 0
    ensures Sum(JoinRow(o, cards, user, rarity)) >= 0
  {
    if cards != [] {
      JoinRowNonNegative(o, cards[1..], user, rarity);
      var head := if o.userId == user && o.waifuId == cards[0].id && cards[0].rarity == rarity then [o.amount] else [];
      SumAppend(head, JoinRow(o, cards[1..], user, rarity));
      assert Sum(head) >= 0 by {
        if head != [] {
          assert head[1..] == [];
        }
      }
    }
  }
}
