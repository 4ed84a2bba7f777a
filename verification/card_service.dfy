/** Read-only card queries (CardService in src/services/cardService.ts). */
module CardService {
  import opened Types
  import opened Entities
  import opened Cards
  import opened JobAssignments

  /**
   * `toLowerCase`, simplified on purpose to ASCII: each capital A-Z becomes its small letter and
   * every other character is kept. JavaScript also lowers non-ASCII capitals (the Kelvin sign,
   * 'Ä', ...); those mappings are not part of this model.
   */
  function ToLower(s: string): (t: string)
    ensures |t| == |s|
    ensures forall i :: 0 <= i < |s| ==> ('A' <= s[i] <= 'Z' ==> t[i] as int == s[i] as int + 32) &&
                                          (!('A' <= s[i] <= 'Z') ==> t[i] == s[i])
  {
    if s == [] then []
    else [if 'A' <= s[0] <= 'Z' then (s[0] as int + 32) as char else s[0]] + ToLower(s[1..])
  }

  /** Lower-casing is idempotent, so a code that is already lower case is looked up as typed. */
  lemma {:induction false} ToLowerIdempotent(s: string)
    ensures ToLower(ToLower(s)) == ToLower(s)
  {
  }

  /** The unburned card with this code, as the lookups with `burned: false` find it. */
  function FindUnburned(cards: map<CardId, Card>, id: CardId): (c: Option<Card>)
    ensures c.Some? <==> id in cards && !cards[id].burned
    ensures c.Some? ==> c.value == cards[id]
  {
    if id in cards && !cards[id].burned then Some(cards[id]) else None
  }

  /**
   * getOwnedCard: look the lower-cased code up among unburned, owned cards, then check the
   * owner. Returns the code of the card found.
   */
  function GetOwnedCard(cards: map<CardId, Card>, user: UserId, id: string): (r: Result<CardId>)
    ensures r.Ok? ==> r.value == ToLower(id)
  {
    var key := ToLower(id);
    if key !in cards || cards[key].burned || cards[key].owner.None? then Err("Card not found")
    else if cards[key].owner.value != user then Err("You don't own this card")
    else Ok(key)
  }

  /**
   * Ok exactly for an unburned card the user owns; 'Card not found' for a missing, burned or
   * unowned card; "You don't own this card" for one owned by someone else. Nothing else is returned.
   */
  lemma {:induction false} GetOwnedCardCases(cards: map<CardId, Card>, user: UserId, id: string)
    ensures var r := GetOwnedCard(cards, user, id); var key := ToLower(id);
      (r.Ok? <==> key in cards && !cards[key].burned && cards[key].owner == Some(user)) &&
      (r == Err("Card not found") <==> key !in cards || cards[key].burned || cards[key].owner.None?) &&
      (r == Err("You don't own this card") <==>
         key in cards && !cards[key].burned && cards[key].owner.Some? && cards[key].owner.value != user)
  {
  }

  datatype Usage = JobSlot | Unused

  /** getCardUsage: 'job_slot' when the count of assignments holding the card is positive. */
  function GetCardUsage(jobs: map<(UserId, Slot), JobAssignment>, id: CardId): Usage
  {
    var holding := set k | k in jobs && jobs[k].card == Some(id);
    if |holding| > 0 then JobSlot else Unused
  }

  /** A card is in use exactly when some assignment references it. */
  lemma {:induction false} GetCardUsageCases(jobs: map<(UserId, Slot), JobAssignment>, id: CardId)
    ensures GetCardUsage(jobs, id) == JobSlot <==> exists k :: k in jobs && jobs[k].card == Some(id)
  {
    var holding := set k | k in jobs && jobs[k].card == Some(id);
    if exists k :: k in jobs && jobs[k].card == Some(id) {
      var k :| k in jobs && jobs[k].card == Some(id);
      assert k in holding;
    } else {
      assert holding == {};
    }
  }
}
