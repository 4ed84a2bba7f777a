/**
 * Row shapes of the tables the economy reads and writes (the files under src/entities), as values.
 * Display-only columns (usernames shown on cards, avatar URLs, icons, frame ids) are not kept.
 */
module Entities {
  import opened Types

  /** Discord user ids (bigint columns carried as strings). */
  type UserId = string
  /** Card codes, see module CardCode. */
  type CardId = string
  /** Inventory item ids such as "gold" or "free claim". */
  type ItemId = string
  type MapperId = int

  /** The four card conditions, from worst to best; the `id` of a card_condition row. */
  datatype Tier = BadlyDamaged | Poor | Good | Mint

  /** A card_condition row: the upgrade ladder links tiers through nextUpgrade / previousUpgrade. */
  datatype ConditionRow = ConditionRow(
    multiplier: real,
    upgradeChance: real,
    upgradePrice: int,
    nextUpgrade: Option<Tier>,
    previousUpgrade: Option<Tier>)

  /** A mapper row: the person a card depicts. */
  datatype Mapper = Mapper(username: string, rarity: int, deleted: bool)

  /** A shop_price row: `amount` units of `item` per unit bought. */
  datatype ShopPrice = ShopPrice(item: ItemId, amount: int)

  /** A shop_item row with its eager prices. */
  datatype ShopItem = ShopItem(item: ItemId, prices: seq<ShopPrice>)

  /** The three rate-limited commands (TimeoutType in src/services/timeout.ts). */
  datatype TimeoutType = Drop | Claim | Daily

  /** The four job slots of every user. */
  datatype Slot = A | B | C | D

  /** What a trade_offer row offers: a card, or some units of an item. */
  datatype OfferTarget = CardOffer(card: CardId) | ItemOffer(item: ItemId)

  /** A trade_offer row. */
  datatype TradeOffer = TradeOffer(user: UserId, target: OfferTarget, quantity: int)

  /** A trade_session row with its offers. */
  datatype TradeSession = TradeSession(user1: UserId, user2: UserId, offers: seq<TradeOffer>)
  {
    predicate HasParticipant(u: UserId) { u == user1 || u == user2 }
  }

  /** A wishlist_entry row of one user. */
  datatype WishlistEntry = WishlistEntry(mapper: MapperId, createdAt: int)

  /** An outcome of Math.random(): a real in [0, 1). */
  type Roll = r: real | 0.0 <= r < 1.0

  const Gold: ItemId := "gold"
  const FreeClaim: ItemId := "free claim"
  const Superdrop: ItemId := "superdrop"
  const DropSpeedup: string := "drop speedup"
  const ClaimSpeedup: string := "claim speedup"

  const SecondMs: int := 1000
  const MinuteMs: int := 60 * SecondMs
  const HourMs: int := 60 * MinuteMs
  const DayMs: int := 24 * HourMs
}
