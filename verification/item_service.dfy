/** Reading and changing inventory amounts (ItemService in src/services/itemService.ts). */
module ItemService {
  import opened Types
  import opened Entities
  import opened Numeric
  import opened State

  /** getItemCount: the stored amount, or 0 when the user has no entry for the item. */
  function GetItemCount(l: Ledger, user: UserId, item: ItemId): (n: int)
    ensures (user, item) !in l ==> n == 0
    ensures LedgerValid(l) ==> n >= 0
  {
    if (user, item) in l then l[(user, item)] else 0
  }

  /**
   * The ledger changeItemCount leaves behind: the amount moves by delta, or the change is
   * refused with 'Insufficient items' when the balance would go negative.
   */
  function ChangedLedger(l: Ledger, user: UserId, item: ItemId, delta: int): (r: Result<Ledger>)
    ensures r.Ok? <==> GetItemCount(l, user, item) + delta >= 0
    ensures r.Err? ==> r.message == "Insufficient items"
  {
    var before := GetItemCount(l, user, item);
    if before + delta < 0 then Err("Insufficient items") else Ok(l[(user, item) := before + delta])
  }

  /**
   * A successful change moves exactly the (user, item) balance by delta, touches no other
   * entry, and keeps every balance non-negative.
   */
  lemma {:induction false} ChangeEffect(l: Ledger, user: UserId, item: ItemId, delta: int)
    requires ChangedLedger(l, user, item, delta).Ok?
    ensures var l' := ChangedLedger(l, user, item, delta).value;
      GetItemCount(l', user, item) == GetItemCount(l, user, item) + delta &&
      (forall k :: k != (user, item) ==> (k in l' <==> k in l) && (k in l ==> l'[k] == l[k])) &&
      (LedgerValid(l) ==> LedgerValid(l'))
  {
  }

  /** An entry that did not exist is created holding exactly a non-negative delta. */
  lemma {:induction false} ChangeCreatesEntry(l: Ledger, user: UserId, item: ItemId, delta: int)
    requires (user, item) !in l && delta >= 0
    ensures ChangedLedger(l, user, item, delta) == Ok(l[(user, item) := delta])
  {
  }

  /** Undoing a change: a debit of what was just credited restores every balance. */
  lemma {:induction false} ChangeInverse(l: Ledger, user: UserId, item: ItemId, delta: int)
    requires LedgerValid(l) && ChangedLedger(l, user, item, delta).Ok?
    ensures var l' := ChangedLedger(l, user, item, delta).value;
      ChangedLedger(l', user, item, -delta).Ok? &&
      forall u, i :: GetItemCount(ChangedLedger(l', user, item, -delta).value, u, i) == GetItemCount(l, u, i)
  {
  }

  /**
   * changeItemCount: floor the amount, refuse a change that would make the balance negative,
   * otherwise update the entry (or insert it) and return the amount it held before.
   */
  method ChangeItemCount(w: World, user: UserId, item: ItemId, amount: real) returns (r: Result<int>)
    requires w.Valid()
    modifies w`ledger
    ensures w.Valid()
    ensures var c := ChangedLedger(old(w.ledger), user, item, Floor(amount));
      if c.Ok? then r == Ok(GetItemCount(old(w.ledger), user, item)) && w.ledger == c.value
      else r == Err(c.message) && w.ledger == old(w.ledger)
  {
    var before := GetItemCount(w.ledger, user, item);
    var delta := Floor(amount);
    if before + delta < 0 {
      return Err("Insufficient items");
    }
    ChangeEffect(w.ledger, user, item, delta);
    w.ledger := w.ledger[(user, item) := before + delta];
    return Ok(before);
  }
}
