/**
 * Claiming a dropped card from its button (src/interaction-handlers/claim.ts).
 * The whole handler is one transaction; `now` is the clock and `roll` the Math.random()
 * outcome of the fight.
 */
module Claim {
  import opened Types
  import opened Entities
  import opened Cards
  import opened State
  import opened Timeout
  import opened CardService

  const ClaimPrefix: string := "claim:"

  /** How long after its drop a card can be claimed. */
  const ClaimWindow: int := 60 * SecondMs

  /** The chance that a dropper fighting the current owner wins. */
  const FightWinChance: real := 0.75

  /** parse: a button id starting with 'claim:' carries the card code after the prefix. */
  function ParseClaim(customId: string): (r: Option<CardId>)
    ensures r.Some? ==> customId == ClaimPrefix + r.value
  {
    if |customId| >= |ClaimPrefix| && customId[..|ClaimPrefix|] == ClaimPrefix
    then Some(customId[|ClaimPrefix|..]) else None
  }

  /** parse inverts the button ids built by drop and superdrop (`claim:${card.id}`), for every code. */
  lemma {:induction false} ParseClaimInverse(id: CardId)
    ensures ParseClaim(ClaimPrefix + id) == Some(id)
  {
    assert (ClaimPrefix + id)[..|ClaimPrefix|] == ClaimPrefix;
    assert (ClaimPrefix + id)[|ClaimPrefix|..] == id;
  }

  datatype ClaimOutcome =
    | OnCooldown
    | CardNotFound
    | CardExpired
    | AlreadyOwned
    | WonFight
    | LostFight
    | AlreadyClaimed
    | Claimed

  /** The outcomes in which the card passes to the claimant. */
  predicate Transfers(o: ClaimOutcome)
  {
    o == WonFight || o == Claimed
  }

  /** The outcomes in which the claim cooldown is consumed. */
  predicate ConsumesCooldown(o: ClaimOutcome)
  {
    o == WonFight || o == LostFight || o == Claimed
  }

  /** The decision tree of run. */
  function ClaimDecision(blocked: bool, card: Option<Card>, user: UserId, now: int, roll: Roll): ClaimOutcome
  {
    if blocked then OnCooldown
    else if card.None? then CardNotFound
    else if now - card.value.createdAt > ClaimWindow then CardExpired
    else if card.value.owner == Some(user) then AlreadyOwned
    else if card.value.owner.Some? && card.value.droppedBy == user then
      (if roll < FightWinChance then WonFight else LostFight)
    else if card.value.owner.Some? then AlreadyClaimed
    else Claimed
  }

  /**
   * A claim goes through (and costs the cooldown) exactly for an unblocked claimant on a live,
   * unburned card they do not own that is either unowned or was dropped by them; the dropper's
   * fight is then won exactly when the roll is below 0.75. An unowned card always goes to the claimant.
   */
  lemma {:induction false} ClaimDecisionCases(blocked: bool, card: Option<Card>, user: UserId, now: int, roll: Roll)
    ensures var o := ClaimDecision(blocked, card, user, now, roll);
      var eligible := !blocked && card.Some? && now - card.value.createdAt <= ClaimWindow &&
                      card.value.owner != Some(user);
      (ConsumesCooldown(o) <==> eligible && (card.value.owner.None? || card.value.droppedBy == user)) &&
      (Transfers(o) ==> ConsumesCooldown(o)) &&
      (eligible && card.value.owner.None? ==> o == Claimed) &&
      (eligible && card.value.owner.Some? && card.value.droppedBy == user ==> (Transfers(o) <==> roll < FightWinChance)) &&
      (eligible && card.value.owner.Some? && card.value.droppedBy != user ==> o == AlreadyClaimed)
  {
  }

  /**
   * run: check the claim cooldown, find the card, then follow the decision tree; a transfer
   * sets owner and claimedBy (an update, so the burn-value hook does not run), and every
   * fight or claim consumes the cooldown.
   */
  method RunClaim(w: World, user: UserId, id: CardId, now: int, roll: Roll) returns (outcome: ClaimOutcome)
    requires w.Valid()
    modifies w`cards, w`ledger, w`timeouts
    ensures w.Valid()
    ensures var v := old(GetTimeout(w, user, Claim, now));
      outcome == ClaimDecision(Expired(v, now), FindUnburned(old(w.cards), id), user, now, roll) &&
      (ConsumesCooldown(outcome) ==>
         ConsumeResult(v, now, old(Gate(w.timeouts, w.ledger))) == Ok(Gate(w.timeouts, w.ledger))) &&
      (!ConsumesCooldown(outcome) ==> w.timeouts == old(w.timeouts) && w.ledger == old(w.ledger))
    ensures Transfers(outcome) ==>
      w.cards == old(w.cards)[id := old(w.cards)[id].(owner := Some(user), claimedBy := Some(user))]
    ensures !Transfers(outcome) ==> w.cards == old(w.cards)
  {
    var ratelimit := GetTimeout(w, user, Claim, now);
    if Expired(ratelimit, now) {
      return OnCooldown;
    }
    ConsumeAfterCheck(w, user, Claim, now);
    var card := FindUnburned(w.cards, id);
    if card.None? {
      return CardNotFound;
    }
    outcome := SettleClaim(w, user, id, ratelimit, now, roll);
  }

  /**
   * The rest of run once the cooldown check passed and the card was found: the claim window,
   * then the owner branches; the outcomes that consume the cooldown do so through `v`.
   */
  method SettleClaim(w: World, user: UserId, id: CardId, v: TimeoutView, now: int, roll: Roll) returns (outcome: ClaimOutcome)
    requires w.Valid() && id in w.cards && !w.cards[id].burned
    requires ConsumeResult(v, now, Gate(w.timeouts, w.ledger)).Ok?
    modifies w`cards, w`ledger, w`timeouts
    ensures w.Valid()
    ensures outcome == ClaimDecision(false, Some(old(w.cards)[id]), user, now, roll)
    ensures ConsumesCooldown(outcome) ==>
      ConsumeResult(v, now, old(Gate(w.timeouts, w.ledger))) == Ok(Gate(w.timeouts, w.ledger))
    ensures !ConsumesCooldown(outcome) ==> w.timeouts == old(w.timeouts) && w.ledger == old(w.ledger)
    ensures Transfers(outcome) ==>
      w.cards == old(w.cards)[id := old(w.cards)[id].(owner := Some(user), claimedBy := Some(user))]
    ensures !Transfers(outcome) ==> w.cards == old(w.cards)
  {
    var c := w.cards[id];
    if now - c.createdAt > ClaimWindow {
      return CardExpired;
    }
    if c.owner == Some(user) {
      outcome := AlreadyOwned;
    } else if c.owner.Some? && c.droppedBy == user {
      if roll < FightWinChance {
        TransferCard(w, user, id);
        outcome := WonFight;
      } else {
        outcome := LostFight;
      }
      var _ := Consume(w, v, now);
    } else if c.owner.Some? {
      outcome := AlreadyClaimed;
    } else {
      TransferCard(w, user, id);
      outcome := Claimed;
      var _ := Consume(w, v, now);
    }
  }

  /** The card passes to the claimant: owner and claimedBy are set, nothing else changes. */
  method TransferCard(w: World, user: UserId, id: CardId)
    requires w.Valid() && id in w.cards
    modifies w`cards
    ensures w.Valid()
    ensures w.cards == old(w.cards)[id := old(w.cards)[id].(owner := Some(user), claimedBy := Some(user))]
  {
    w.cards := w.cards[id := w.cards[id].(owner := Some(user), claimedBy := Some(user))];
  }
}
