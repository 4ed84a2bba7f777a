/**
 * The database as one object: every table the economy writes is a map field of World, and
 * every transaction of the bot is one method on it. Read-only catalog tables (mappers, card
 * conditions, shop items, inventory items) are constants of the world.
 */
module State {
  import opened Types
  import opened Entities
  import opened Cards
  import opened JobAssignments

  /** inventory_entry: (user, item) -> amount. */
  type Ledger = map<(UserId, ItemId), int>

  /** No stored inventory amount is negative. */
  ghost predicate LedgerValid(l: Ledger)
  {
    forall k :: k in l ==> l[k] >= 0
  }

  /** Every card refers to a known mapper and has a motivation in [1, 10]. */
  ghost predicate CardsValid(cards: map<CardId, Card>, mappers: map<MapperId, Mapper>)
  {
    forall id :: id in cards ==> cards[id].mapper in mappers && 1 <= cards[id].jobMotivation <= 10
  }

  /** Replacing one card by a well-formed one keeps the table well formed. */
  lemma {:induction false} CardUpdateValid(cards: map<CardId, Card>, mappers: map<MapperId, Mapper>, key: CardId, c: Card)
    requires CardsValid(cards, mappers) && c.mapper in mappers && 1 <= c.jobMotivation <= 10
    ensures CardsValid(cards[key := c], mappers)
  {
  }

  /** No card is bound to two job slots. */
  ghost predicate JobsValid(jobs: map<(UserId, Slot), JobAssignment>)
  {
    forall k1, k2 :: k1 in jobs && k2 in jobs && k1 != k2 && jobs[k1].card.Some? ==> jobs[k1].card != jobs[k2].card
  }

  /** A well-formed offer: made by a participant, for a positive quantity. */
  ghost predicate OfferValid(s: TradeSession, o: TradeOffer)
  {
    s.HasParticipant(o.user) && o.quantity >= 1
  }

  /** No two offers of a session are the same user offering the same card or item. */
  ghost predicate OffersDistinct(offers: seq<TradeOffer>)
  {
    forall i, j :: 0 <= i < j < |offers| ==> offers[i].user != offers[j].user || offers[i].target != offers[j].target
  }

  /**
   * Trade sessions: ids below the next id, two distinct participants, well-formed and distinct
   * offers, and no user in two sessions at once.
   */
  ghost predicate SessionsValid(sessions: map<nat, TradeSession>, nextId: nat)
  {
    (forall id :: id in sessions ==>
       id < nextId && sessions[id].user1 != sessions[id].user2 &&
       OffersDistinct(sessions[id].offers) &&
       forall o :: o in sessions[id].offers ==> OfferValid(sessions[id], o)) &&
    (forall i, j, u :: i in sessions && j in sessions && i != j && sessions[i].HasParticipant(u) ==>
       !sessions[j].HasParticipant(u))
  }

  /** No two entries of a list name the same mapper. */
  ghost predicate MappersDistinct(entries: seq<WishlistEntry>)
  {
    forall i, j :: 0 <= i < j < |entries| ==> entries[i].mapper != entries[j].mapper
  }

  /** A wishlist holds at most ten entries, never the same mapper twice, and only known mappers. */
  ghost predicate WishlistValid(entries: seq<WishlistEntry>, mappers: map<MapperId, Mapper>)
  {
    |entries| <= 10 && MappersDistinct(entries) &&
    forall i :: 0 <= i < |entries| ==> entries[i].mapper in mappers
  }

  /** Every user's wishlist is valid. */
  ghost predicate WishlistsValid(wishlists: map<UserId, seq<WishlistEntry>>, mappers: map<MapperId, Mapper>)
  {
    forall u :: u in wishlists ==> WishlistValid(wishlists[u], mappers)
  }

  /** The prices of a shop item name distinct items (shop_price is keyed by shop item and item). */
  ghost predicate PricesDistinct(prices: seq<ShopPrice>)
  {
    forall i, j :: 0 <= i < j < |prices| ==> prices[i].item != prices[j].item
  }

  /** card_condition holds a row for every tier. */
  ghost predicate ConditionsComplete(conditions: map<Tier, ConditionRow>)
  {
    forall t: Tier :: t in conditions
  }

  /** Every shop item's prices name distinct items. */
  ghost predicate ShopValid(shop: map<string, ShopItem>)
  {
    forall id :: id in shop ==> PricesDistinct(shop[id].prices)
  }

  class World {
    var cards: map<CardId, Card>
    var ledger: Ledger
    /** command_timeout: (user, command) -> lastUsed. */
    var timeouts: map<(UserId, TimeoutType), int>
    /** user_effect: (user, effect) -> activeUntil. */
    var effects: map<(UserId, string), int>
    var jobs: map<(UserId, Slot), JobAssignment>
    var sessions: map<nat, TradeSession>
    /** The next value of trade_session's auto-increment id. */
    var nextSessionId: nat
    var wishlists: map<UserId, seq<WishlistEntry>>
    /** The card_sequence row with id 0, if present. */
    var cardSequence: Option<int>

    const mappers: map<MapperId, Mapper>
    const conditions: map<Tier, ConditionRow>
    const shop: map<string, ShopItem>
    const items: set<ItemId>

    ghost predicate Valid()
      reads this
    {
      ConditionsComplete(conditions) &&
      LedgerValid(ledger) &&
      CardsValid(cards, mappers) &&
      JobsValid(jobs) &&
      SessionsValid(sessions, nextSessionId) &&
      WishlistsValid(wishlists, mappers) &&
      ShopValid(shop) &&
      (cardSequence.Some? ==> cardSequence.value >= 0)
    }

    /** A database holding the given catalogs and sequence row, and nothing else. */
    constructor (mappers: map<MapperId, Mapper>, conditions: map<Tier, ConditionRow>,
                 shop: map<string, ShopItem>, items: set<ItemId>, sequence: Option<int>)
      requires forall t: Tier :: t in conditions
      requires forall id :: id in shop ==> PricesDistinct(shop[id].prices)
      requires sequence.Some? ==> sequence.value >= 0
      ensures Valid()
      ensures this.mappers == mappers && this.conditions == conditions
      ensures this.shop == shop && this.items == items && cardSequence == sequence
      ensures cards == map[] && ledger == map[] && timeouts == map[] && effects == map[]
      ensures jobs == map[] && sessions == map[] && wishlists == map[] && nextSessionId == 0
    {
      this.mappers := mappers;
      this.conditions := conditions;
      this.shop := shop;
      this.items := items;
      cardSequence := sequence;
      cards := map[];
      ledger := map[];
      timeouts := map[];
      effects := map[];
      jobs := map[];
      sessions := map[];
      nextSessionId := 0;
      wishlists := map[];
    }

    /** Saving one card row: the table maps id to c, and stays well formed. */
    method SaveCard(id: CardId, c: Card)
      requires Valid() && c.mapper in mappers && 1 <= c.jobMotivation <= 10
      modifies this`cards
      ensures Valid()
      ensures cards == old(cards)[id := c]
    {
      CardUpdateValid(cards, mappers, id, c);
      cards := cards[id := c];
    }

    /** Updating one job row without changing its card keeps the world well formed. */
    method SaveJob(key: (UserId, Slot), j: JobAssignment)
      requires Valid() && key in jobs && j.card == jobs[key].card
      modifies this`jobs
      ensures Valid()
      ensures jobs == old(jobs)[key := j]
    {
      jobs := jobs[key := j];
    }

    /** Writing the inventory table as a whole: any ledger without negative amounts keeps the world well formed. */
    method SetLedger(l: Ledger)
      requires Valid() && LedgerValid(l)
      modifies this`ledger
      ensures Valid()
      ensures ledger == l
    {
      ledger := l;
    }

    /** The burn value the insert/update hook stores for a card of this world. */
    function HookedBurnValue(c: Card): (v: int)
      requires c.mapper in mappers && c.condition in conditions
      ensures v == BurnValue(mappers[c.mapper].rarity, conditions[c.condition].multiplier, c.foil)
    {
      CalculateBurnValue(c, mappers[c.mapper].rarity, conditions[c.condition].multiplier).burnValue
    }
  }
}
