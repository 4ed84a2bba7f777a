/**
 * Burning a card from its confirmation button (src/interaction-handlers/burn.ts): the card is
 * marked burned and its owner is paid its stored burn value in gold plus its dust.
 */
module Burn {
  import opened Types
  import opened Entities
  import opened Cards
  import opened State
  import opened ItemService
  import opened CardService
  import opened CardCode
  import opened Numeric

  const BurnPrefix: string := "burn:"

  /** `split(sep)`: the pieces between separators, in order; at least one piece. */
  function Split(s: string, sep: char): (parts: seq<string>)
    ensures |parts| >= 1
  {
    if s == [] then [""]
    else
      var rest := Split(s[1..], sep);
      if s[0] == sep then [""] + rest else [[s[0]] + rest[0]] + rest[1..]
  }

  /** A string without the separator is one piece. */
  lemma {:induction false} SplitNoSeparator(s: string, sep: char)
    requires sep !in s
    ensures Split(s, sep) == [s]
  {
    if s != [] {
      assert sep !in s[1..];
      SplitNoSeparator(s[1..], sep);
      assert [s[0]] + s[1..] == s;
    }
  }

  /** Splitting `a + sep + b` with no separator in a gives a, then the pieces of b. */
  lemma {:induction false} SplitAtSeparator(a: string, b: string, sep: char)
    requires sep !in a
    ensures Split(a + [sep] + b, sep) == [a] + Split(b, sep)
  {
    if a == [] {
      assert a + [sep] + b == [sep] + b;
      assert ([sep] + b)[1..] == b;
    } else {
      assert (a + [sep] + b)[1..] == a[1..] + [sep] + b;
      assert sep !in a[1..];
      SplitAtSeparator(a[1..], b, sep);
      assert (a + [sep] + b)[0] == a[0] != sep;
      assert [a[0]] + a[1..] == a;
    }
  }

  /**
   * parse: for an id starting with 'burn:', the second piece decides confirm and the third is
   * the card code (absent when the id has fewer pieces).
   */
  function ParseBurn(customId: string): Option<(bool, Option<string>)>
  {
    if |customId| >= |BurnPrefix| && customId[..|BurnPrefix|] == BurnPrefix then
      var pieces := Split(customId, ':')[1..];
      var confirm := |pieces| >= 1 && pieces[0] == "confirm";
      Some((confirm, if |pieces| >= 2 then Some(pieces[1]) else None))
    else None
  }

  /** The button id of a burn decision: `burn:confirm:${card.id}` or `burn:cancel:${card.id}`. */
  function BurnButtonId(confirm: bool, id: CardId): string
  {
    BurnPrefix + (if confirm then "confirm" else "cancel") + ":" + id
  }

  /** parse inverts the button ids, for every code without a ':' in it. */
  lemma {:induction false} ParseBurnInverse(confirm: bool, id: CardId)
    requires ':' !in id
    ensures ParseBurn(BurnButtonId(confirm, id)) == Some((confirm, Some(id)))
  {
    var word := if confirm then "confirm" else "cancel";
    var s := BurnButtonId(confirm, id);
    assert s == "burn" + [':'] + (word + [':'] + id);
    SplitAtSeparator("burn", word + [':'] + id, ':');
    SplitAtSeparator(word, id, ':');
    SplitNoSeparator(id, ':');
    assert s[..|BurnPrefix|] == BurnPrefix;
  }

  /** Every card code is a valid burn button payload: codes never contain ':'. */
  lemma {:induction false} CardCodesParse(n: nat, confirm: bool)
    ensures ParseBurn(BurnButtonId(confirm, Encode(n))) == Some((confirm, Some(Encode(n))))
  {
    EncodeInAlphabet(n);
    ParseBurnInverse(confirm, Encode(n));
  }

  datatype BurnOutcome =
    | Refused(message: string)
    | AssignedToJob
    | Cancelled
    | BurnedFor(gold: int)
    | RolledBack(message: string)

  /** The two credits of a confirmed burn: the burn value in gold, then the dust. */
  function BurnCredits(l: Ledger, user: UserId, burnValue: int, dustType: ItemId, dustValue: int): (r: Result<Ledger>)
  {
    var afterGold := ChangedLedger(l, user, Gold, burnValue);
    if afterGold.Err? then afterGold else ChangedLedger(afterGold.value, user, dustType, dustValue)
  }

  /**
   * With non-negative values the credits always succeed: gold rises by the burn value, the
   * card's dust by its dust value, and no other balance moves.
   */
  lemma {:induction false} BurnCreditsEffect(l: Ledger, user: UserId, burnValue: int, t: Tier, dustValue: int)
    requires LedgerValid(l) && burnValue >= 0 && dustValue >= 0
    ensures var r := BurnCredits(l, user, burnValue, DustType(t), dustValue);
      r.Ok? && LedgerValid(r.value) &&
      GetItemCount(r.value, user, Gold) == GetItemCount(l, user, Gold) + burnValue &&
      GetItemCount(r.value, user, DustType(t)) == GetItemCount(l, user, DustType(t)) + dustValue &&
      forall k :: k != (user, Gold) && k != (user, DustType(t)) ==> (k in r.value <==> k in l) && (k in l ==> r.value[k] == l[k])
  {
    DustTypeInjective(t, t);
    var l1 := ChangedLedger(l, user, Gold, burnValue).value;
    ChangeEffect(l, user, Gold, burnValue);
    ChangeEffect(l1, user, DustType(t), dustValue);
  }

  /** A burned card is never found again, so it cannot be burned (and credited) twice. */
  lemma {:induction false} BurnedCardNotFound(cards: map<CardId, Card>, user: UserId, id: string)
    requires ToLower(id) in cards && cards[ToLower(id)].burned
    ensures GetOwnedCard(cards, user, id) == Err("Card not found")
  {
  }

  /**
   * run, one serializable transaction: a card that is not the user's (or an id missing from the
   * button) is refused, a card in a job slot is refused, a cancel changes nothing, and a
   * confirm marks the card burned and pays out; a failed credit rolls everything back.
   */
  method RunBurn(w: World, user: UserId, confirm: bool, id: Option<string>) returns (outcome: BurnOutcome)
    requires w.Valid()
    modifies w`cards, w`ledger
    ensures w.Valid()
    ensures id.None? ==> outcome == Refused("An unknown error occured") && unchanged(w)
    ensures id.Some? && GetOwnedCard(old(w.cards), user, id.value).Err? ==>
      outcome == Refused(GetOwnedCard(old(w.cards), user, id.value).message) && unchanged(w)
    ensures id.Some? && GetOwnedCard(old(w.cards), user, id.value).Ok? ==>
      var key := GetOwnedCard(old(w.cards), user, id.value).value;
      var c := old(w.cards)[key];
      var credits := BurnCredits(old(w.ledger), user, c.burnValue, DustType(c.condition), DustValue(w.mappers[c.mapper].rarity));
      if GetCardUsage(w.jobs, key) == JobSlot then outcome == AssignedToJob && unchanged(w)
      else if !confirm then outcome == Cancelled && unchanged(w)
      else if credits.Ok? then
        outcome == BurnedFor(c.burnValue) && w.ledger == credits.value &&
        w.cards == old(w.cards)[key := c.(burned := true)]
      else outcome == RolledBack(credits.message) && unchanged(w)
  {
    if id.None? {
      return Refused("An unknown error occured");
    }
    var cardResult := GetOwnedCard(w.cards, user, id.value);
    if cardResult.IsErr() {
      return Refused(cardResult.message);
    }
    var key := cardResult.value;
    if GetCardUsage(w.jobs, key) == JobSlot {
      return AssignedToJob;
    }
    if !confirm {
      return Cancelled;
    }
    outcome := CommitBurn(w, user, key);
  }

  /**
   * The burn transaction: mark the card burned, credit its burn value in gold and its dust,
   * and roll everything back if either credit fails.
   */
  method CommitBurn(w: World, user: UserId, key: CardId) returns (outcome: BurnOutcome)
    requires w.Valid() && key in w.cards
    modifies w`cards, w`ledger
    ensures w.Valid()
    ensures var c := old(w.cards)[key];
      var credits := BurnCredits(old(w.ledger), user, c.burnValue, DustType(c.condition), DustValue(w.mappers[c.mapper].rarity));
      if credits.Ok? then
        outcome == BurnedFor(c.burnValue) && w.ledger == credits.value &&
        w.cards == old(w.cards)[key := c.(burned := true)]
      else outcome == RolledBack(credits.message) && unchanged(w)
  {
    var card := w.cards[key];
    var value := card.burnValue;
    var dustValue := DustValue(w.mappers[card.mapper].rarity);
    var cardsBefore, ledgerBefore := w.cards, w.ledger;
    ghost var afterGold := ChangedLedger(ledgerBefore, user, Gold, value);
    CardUpdateValid(w.cards, w.mappers, key, card.(burned := true));
    w.cards := w.cards[key := card.(burned := true)];
    assert Floor(value as real) == value;
    var gold := ChangeItemCount(w, user, Gold, value as real);
    if gold.Err? {
      w.cards, w.ledger := cardsBefore, ledgerBefore;
      return RolledBack(gold.message);
    }
    assert w.ledger == afterGold.value;
    assert Floor(dustValue as real) == dustValue;
    var dust := ChangeItemCount(w, user, DustType(card.condition), dustValue as real);
    if dust.Err? {
      w.cards, w.ledger := cardsBefore, ledgerBefore;
      return RolledBack(dust.message);
    }
    outcome := BurnedFor(value);
  }
}
