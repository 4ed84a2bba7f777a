/**
 * Upgrading a card's condition (chatInputRun in src/commands/upgrade.ts): a quote read before
 * the confirmation button, then a serializable commit that re-reads the card, charges the
 * quoted price and rolls the new tier.
 */
module Upgrade {
  import opened Types
  import opened Entities
  import opened Cards
  import opened State
  import opened ItemService

  /** The chance that a failed upgrade also drops the card one tier, when a lower tier exists. */
  const DowngradeChance: real := 0.5

  /** What the command shows before the confirmation: the card, its tier and the price. */
  datatype UpgradeQuote = UpgradeQuote(id: CardId, tier: Tier, price: int)

  datatype UpgradeOutcome =
    | Refused(message: string)
    | Cancelled
    | Aborted
    | NotEnoughGold
    | CannotUpgradeNow
    | Attempted(success: bool, tier: Tier)

  /** Whether a card is the user's, unburned: the rows the no-argument lookup ranges over. */
  predicate OwnedUnburned(cards: map<CardId, Card>, user: UserId, id: CardId)
  {
    id in cards && cards[id].owner == Some(user) && !cards[id].burned
  }

  /**
   * The answer of the lookup without a card argument: none exactly when the user owns no
   * unburned card, otherwise one of the user's unburned cards with the latest createdAt (any one
   * of them on a tie).
   */
  ghost predicate IsLatestOwned(cards: map<CardId, Card>, user: UserId, id: Option<CardId>)
  {
    (id.None? <==> forall k :: k in cards ==> !OwnedUnburned(cards, user, k)) &&
    (id.Some? ==>
      OwnedUnburned(cards, user, id.value) &&
      forall k :: OwnedUnburned(cards, user, k) ==> cards[k].createdAt <= cards[id.value].createdAt)
  }

  /**
   * The card the command works on: with a non-empty code, the card under that code, burned or
   * not, or none when no card has it; without one, the latest owned card.
   */
  ghost predicate IsLookup(cards: map<CardId, Card>, user: UserId, cardId: Option<string>, found: Option<CardId>)
  {
    if cardId.Some? && cardId.value != "" then found == (if cardId.value in cards then Some(cardId.value) else None)
    else IsLatestOwned(cards, user, found)
  }

  /** The lookup without a card argument, by a scan over the user's unburned cards. */
  method LatestOwnedCard(cards: map<CardId, Card>, user: UserId) returns (id: Option<CardId>)
    ensures IsLatestOwned(cards, user, id)
  {
    ghost var owned := set k | k in cards && OwnedUnburned(cards, user, k);
    var candidates := set k | k in cards && OwnedUnburned(cards, user, k);
    id := None;
    var latest := 0;
    while candidates != {}
      decreases |candidates|
      invariant candidates <= owned
      invariant id.None? ==> candidates == owned
      invariant id.Some? ==> id.value in owned && cards[id.value].createdAt == latest
      invariant forall k :: k in owned && k !in candidates ==> cards[k].createdAt <= latest
    {
      var k :| k in candidates;
      if id.None? || cards[k].createdAt > latest {
        id := Some(k);
        latest := cards[k].createdAt;
      }
      candidates := candidates - {k};
    }
    assert forall k :: k in cards && OwnedUnburned(cards, user, k) ==> k in owned;
  }

  /** The quoted price: the tier's upgrade price, doubled for a foil card. */
  function UpgradePrice(row: ConditionRow, foil: bool): (p: int)
    ensures row.upgradePrice >= 0 ==> p >= row.upgradePrice
    ensures foil ==> p == 2 * UpgradePrice(row, false)
  {
    row.upgradePrice * (if foil then 2 else 1)
  }

  /**
   * The checks before the buttons on the card found, in the source's order (no card, not the
   * user's, no next tier), and the quote when all three pass.
   */
  function Quote(cards: map<CardId, Card>, conditions: map<Tier, ConditionRow>, user: UserId, found: Option<CardId>)
    : (r: Result<UpgradeQuote>)
    requires ConditionsComplete(conditions)
    requires found.Some? ==> found.value in cards
    ensures found.None? ==> r == Err("Card not found")
    ensures found.Some? && cards[found.value].owner != Some(user) ==> r == Err("You do not own this card")
    ensures found.Some? && cards[found.value].owner == Some(user) && conditions[cards[found.value].condition].nextUpgrade.None? ==>
      r == Err("This card cannot be upgraded!")
    ensures r.Ok? <==>
      found.Some? && cards[found.value].owner == Some(user) && conditions[cards[found.value].condition].nextUpgrade.Some?
    ensures r.Ok? ==>
      r.value.id == found.value && r.value.tier == cards[found.value].condition &&
      r.value.price == UpgradePrice(conditions[r.value.tier], cards[found.value].foil)
  {
    if found.None? then Err("Card not found")
    else
      var card := cards[found.value];
      if card.owner != Some(user) then Err("You do not own this card")
      else if conditions[card.condition].nextUpgrade.None? then Err("This card cannot be upgraded!")
      else Ok(UpgradeQuote(found.value, card.condition, UpgradePrice(conditions[card.condition], card.foil)))
  }

  /**
   * The part of chatInputRun before the buttons: find the card (by exact code, burned or not,
   * or the latest owned card), check the owner and that the tier has a next tier, and quote.
   */
  method PrepareUpgrade(w: World, user: UserId, cardId: Option<string>) returns (found: Option<CardId>, r: Result<UpgradeQuote>)
    requires w.Valid()
    ensures IsLookup(w.cards, user, cardId, found)
    ensures found.Some? ==> found.value in w.cards
    ensures r == Quote(w.cards, w.conditions, user, found)
    ensures cardId.Some? && cardId.value != "" ==>
      (cardId.value !in w.cards ==> r == Err("Card not found")) &&
      (cardId.value in w.cards && w.cards[cardId.value].owner != Some(user) ==> r == Err("You do not own this card"))
    ensures (cardId.None? || cardId.value == "") && (forall k :: k in w.cards ==> !OwnedUnburned(w.cards, user, k)) ==>
      r == Err("Card not found")
    ensures r.Ok? ==>
      var q := r.value;
      q.id in w.cards && w.cards[q.id].owner == Some(user) && q.tier == w.cards[q.id].condition &&
      w.conditions[q.tier].nextUpgrade.Some? &&
      q.price == UpgradePrice(w.conditions[q.tier], w.cards[q.id].foil) &&
      (cardId.Some? && cardId.value != "" ==> q.id == cardId.value) &&
      (cardId.None? || cardId.value == "" ==> !w.cards[q.id].burned)
    ensures r.Err? && r.message == "This card cannot be upgraded!" ==>
      exists k :: k in w.cards && w.cards[k].owner == Some(user) && w.conditions[w.cards[k].condition].nextUpgrade.None?
  {
    if cardId.Some? && cardId.value != "" {
      found := if cardId.value in w.cards then Some(cardId.value) else None;
    } else {
      found := LatestOwnedCard(w.cards, user);
    }
    if found.None? {
      return found, Err("Card not found");
    }
    var card := w.cards[found.value];
    if card.owner != Some(user) {
      return found, Err("You do not own this card");
    }
    var condition := w.conditions[card.condition];
    if condition.nextUpgrade.None? {
      return found, Err("This card cannot be upgraded!");
    }
    return found, Ok(UpgradeQuote(found.value, card.condition, UpgradePrice(condition, card.foil)));
  }

  /**
   * The tier after the rolls: the next tier on success (roll below the upgrade chance);
   * otherwise the previous tier when one exists and the second roll is below 0.5; else unchanged.
   */
  function RolledTier(current: Tier, row: ConditionRow, successRoll: Roll, downgradeRoll: Roll): (t: Tier)
    requires row.nextUpgrade.Some?
    ensures t == row.nextUpgrade.value || t == current || (row.previousUpgrade.Some? && t == row.previousUpgrade.value)
  {
    if successRoll < row.upgradeChance then row.nextUpgrade.value
    else if row.previousUpgrade.Some? && downgradeRoll < DowngradeChance then row.previousUpgrade.value
    else current
  }

  /** Success is exactly a roll below the chance; a failure only ever moves down, and only on the downgrade roll. */
  lemma {:induction false} RolledTierCases(current: Tier, row: ConditionRow, successRoll: Roll, downgradeRoll: Roll)
    requires row.nextUpgrade.Some?
    ensures successRoll < row.upgradeChance ==> RolledTier(current, row, successRoll, downgradeRoll) == row.nextUpgrade.value
    ensures successRoll >= row.upgradeChance && row.previousUpgrade.Some? ==>
      (RolledTier(current, row, successRoll, downgradeRoll) == row.previousUpgrade.value <==> downgradeRoll < DowngradeChance) ||
      row.previousUpgrade.value == current
    ensures successRoll >= row.upgradeChance && row.previousUpgrade.None? ==> RolledTier(current, row, successRoll, downgradeRoll) == current
  {
  }

  /** The gold update of the commit: `amount - price` on the user's gold row, which does nothing when there is no row. */
  function DebitGoldRow(l: Ledger, user: UserId, price: int): (l': Ledger)
    ensures forall k :: k != (user, Gold) ==> (k in l' <==> k in l) && (k in l ==> l'[k] == l[k])
  {
    if (user, Gold) in l then l[(user, Gold) := l[(user, Gold)] - price] else l
  }

  /** Once the balance check has passed, a positive price is charged exactly and no balance goes negative. */
  lemma {:induction false} DebitGoldRowCharges(l: Ledger, user: UserId, price: int)
    requires LedgerValid(l) && GetItemCount(l, user, Gold) >= price
    ensures LedgerValid(DebitGoldRow(l, user, price))
    ensures price > 0 ==> GetItemCount(DebitGoldRow(l, user, price), user, Gold) == GetItemCount(l, user, Gold) - price
  {
  }

  /**
   * The commit transaction: abort if the re-read card is gone or no longer the user's (the
   * stale-condition comparison of the source compares the quoted tier with itself and never
   * fires), stop when gold is short, then roll the fresh tier, charge the quoted price and save
   * the card, which recomputes its burn value. The fresh tier's ladder is read from the
   * card_condition table.
   */
  method CommitUpgrade(w: World, user: UserId, q: UpgradeQuote, successRoll: Roll, downgradeRoll: Roll)
    returns (o: UpgradeOutcome)
    requires w.Valid()
    modifies w`cards, w`ledger
    ensures w.Valid()
    ensures q.id !in old(w.cards) || old(w.cards)[q.id].owner != Some(user) ==> o == Aborted && unchanged(w)
    ensures q.id in old(w.cards) && old(w.cards)[q.id].owner == Some(user) ==>
      var c := old(w.cards)[q.id];
      var row := w.conditions[c.condition];
      if GetItemCount(old(w.ledger), user, Gold) < q.price then o == NotEnoughGold && unchanged(w)
      else if row.nextUpgrade.None? then o == CannotUpgradeNow && unchanged(w)
      else
        var t := RolledTier(c.condition, row, successRoll, downgradeRoll);
        o == Attempted(successRoll < row.upgradeChance, t) &&
        w.ledger == DebitGoldRow(old(w.ledger), user, q.price) &&
        w.cards == old(w.cards)[q.id := CalculateBurnValue(c.(condition := t), w.mappers[c.mapper].rarity, w.conditions[t].multiplier)]
  {
    if q.id !in w.cards || w.cards[q.id].owner != Some(user) {
      return Aborted;
    }
    var currentCard := w.cards[q.id];
    var currentGold := GetItemCount(w.ledger, user, Gold);
    if currentGold < q.price {
      return NotEnoughGold;
    }
    var condition := w.conditions[currentCard.condition];
    if condition.nextUpgrade.None? {
      return CannotUpgradeNow;
    }
    var success := successRoll < condition.upgradeChance;
    var downgrade := !success && downgradeRoll < DowngradeChance;
    var tier := currentCard.condition;
    if success {
      tier := condition.nextUpgrade.value;
    } else if condition.previousUpgrade.Some? && downgrade {
      tier := condition.previousUpgrade.value;
    }
    DebitGoldRowCharges(w.ledger, user, q.price);
    w.SetLedger(DebitGoldRow(w.ledger, user, q.price));
    assert tier == RolledTier(currentCard.condition, condition, successRoll, downgradeRoll);
    var saved := currentCard.(condition := tier);
    w.SaveCard(q.id, CalculateBurnValue(saved, w.mappers[saved.mapper].rarity, w.conditions[tier].multiplier));
    o := Attempted(success, tier);
  }

  /**
   * The card_condition row as the commit's reload delivers it: only the relations 'condition',
   * 'owner' and 'mapper' are loaded, so the row's own nextUpgrade and previousUpgrade come back
   * unset.
   */
  function AsReloaded(row: ConditionRow): ConditionRow
  {
    row.(nextUpgrade := None, previousUpgrade := None)
  }

  /** The commit as written: the tier check after the balance check reads the reloaded row. */
  function CommitOutcomeAsWritten(cards: map<CardId, Card>, conditions: map<Tier, ConditionRow>, l: Ledger,
                                  user: UserId, q: UpgradeQuote): UpgradeOutcome
    requires forall t: Tier :: t in conditions
  {
    if q.id !in cards || cards[q.id].owner != Some(user) then Aborted
    else if GetItemCount(l, user, Gold) < q.price then NotEnoughGold
    else if AsReloaded(conditions[cards[q.id].condition]).nextUpgrade.None? then CannotUpgradeNow
    else Attempted(false, cards[q.id].condition)
  }

  /** As written, no confirmed upgrade ever reaches the roll: every commit ends before changing anything. */
  lemma {:induction false} CommitAsWrittenNeverRolls(cards: map<CardId, Card>, conditions: map<Tier, ConditionRow>, l: Ledger,
                                  user: UserId, q: UpgradeQuote)
    requires forall t: Tier :: t in conditions
    ensures !CommitOutcomeAsWritten(cards, conditions, l, user, q).Attempted?
  {
  }

  /**
   * The discrepancy: where CommitUpgrade rolls (an owner with enough gold on a tier that has a
   * next tier), the commit as written stops with 'You cannot upgrade this card'.
   */
  lemma {:induction false} AsWrittenStopsWhereModelRolls(w: World, user: UserId, q: UpgradeQuote)
    requires w.Valid() && q.id in w.cards && w.cards[q.id].owner == Some(user)
    requires GetItemCount(w.ledger, user, Gold) >= q.price && w.conditions[w.cards[q.id].condition].nextUpgrade.Some?
    ensures CommitOutcomeAsWritten(w.cards, w.conditions, w.ledger, user, q) == CannotUpgradeNow
  {
  }

  /**
   * The whole command: quote, then cancel (no change) or commit. A confirmed quote always
   * reaches the roll when the user still has the gold, since nothing runs between the quote
   * and the commit.
   */
  method RunUpgrade(w: World, user: UserId, cardId: Option<string>, confirm: bool, successRoll: Roll, downgradeRoll: Roll)
    returns (quote: Result<UpgradeQuote>, o: UpgradeOutcome)
    requires w.Valid()
    modifies w`cards, w`ledger
    ensures w.Valid()
    ensures exists found ::
      (IsLookup(old(w.cards), user, cardId, found) &&
       (found.Some? ==> found.value in old(w.cards)) && quote == Quote(old(w.cards), w.conditions, user, found))
    ensures o.Refused? || o == Cancelled ==> unchanged(w)
    ensures !confirm ==> unchanged(w)
    ensures quote.Err? ==> o == Refused(quote.message) && unchanged(w)
    ensures quote.Ok? && !confirm ==> o == Cancelled && unchanged(w)
    ensures quote.Ok? ==>
      quote.value.id in old(w.cards) && old(w.cards)[quote.value.id].owner == Some(user) &&
      quote.value.tier == old(w.cards)[quote.value.id].condition && w.conditions[quote.value.tier].nextUpgrade.Some?
    ensures quote.Ok? && confirm ==>
      var q := quote.value;
      var c := old(w.cards)[q.id];
      var row := w.conditions[q.tier];
      if GetItemCount(old(w.ledger), user, Gold) < q.price then o == NotEnoughGold && unchanged(w)
      else
        var t := RolledTier(q.tier, row, successRoll, downgradeRoll);
        o == Attempted(successRoll < row.upgradeChance, t) &&
        w.ledger == DebitGoldRow(old(w.ledger), user, q.price) &&
        w.cards == old(w.cards)[q.id := CalculateBurnValue(c.(condition := t), w.mappers[c.mapper].rarity, w.conditions[t].multiplier)]
  {
    var found;
    found, quote := PrepareUpgrade(w, user, cardId);
    if quote.Err? {
      return quote, Refused(quote.message);
    }
    if !confirm {
      return quote, Cancelled;
    }
    o := CommitUpgrade(w, user, quote.value, successRoll, downgradeRoll);
  }
}
