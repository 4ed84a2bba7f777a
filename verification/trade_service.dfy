/**
 * Trade sessions (TradeService in src/services/tradeService.ts): a session between two users
 * collects card and item offers from either side; executing it hands every offered card and
 * item to the other participant in one transaction and closes the session.
 */
module TradeService {
  import opened Types
  import opened Entities
  import opened Cards
  import opened State
  import opened ItemService
  import opened Numeric

  const NoSession := "No active trade session found"
  /** What JavaScript reports when a missing card row is dereferenced. */
  const NullCard := "Cannot read properties of null"

  // ---------------------------------------------------------------------------------------
  // Offers of one session
  // ---------------------------------------------------------------------------------------

  predicate Matches(o: TradeOffer, user: UserId, target: OfferTarget)
  {
    o.user == user && o.target == target
  }

  /** The findOne over a session's offers: the first offer by user for target, if any. */
  function FindOffer(offers: seq<TradeOffer>, user: UserId, target: OfferTarget): (i: Option<nat>)
    ensures i.Some? ==> i.value < |offers| && Matches(offers[i.value], user, target) &&
                        forall k :: 0 <= k < i.value ==> !Matches(offers[k], user, target)
    ensures i.None? ==> forall k :: 0 <= k < |offers| ==> !Matches(offers[k], user, target)
  {
    if offers == [] then None
    else if Matches(offers[0], user, target) then Some(0)
    else match FindOffer(offers[1..], user, target)
      case None => None
      case Some(j) => Some(j + 1)
  }

  /** The quantity user has offered of target: that of the offer findOne returns, or 0. */
  function Offered(offers: seq<TradeOffer>, user: UserId, target: OfferTarget): int
  {
    match FindOffer(offers, user, target)
    case None => 0
    case Some(i) => offers[i].quantity
  }

  /** The offers with the one at index i deleted. */
  function RemoveAt(offers: seq<TradeOffer>, i: nat): (r: seq<TradeOffer>)
    requires i < |offers|
    ensures |r| == |offers| - 1
    ensures forall o :: o in r ==> o in offers
  {
    offers[..i] + offers[i + 1..]
  }

  /** The offers a session holds after a well-formed change: all by participants, all positive, no two alike. */
  ghost predicate OffersFit(s: TradeSession, offers: seq<TradeOffer>)
  {
    OffersDistinct(offers) && forall o :: o in offers ==> OfferValid(s, o)
  }

  /**
   * Appending an offer for a pair (user, target) not yet offered: the new offer is the one
   * found for that pair, every other pair is found where it was, and the offers stay distinct.
   */
  lemma {:induction false} AppendOffer(offers: seq<TradeOffer>, o: TradeOffer)
    requires FindOffer(offers, o.user, o.target).None?
    ensures FindOffer(offers + [o], o.user, o.target) == Some(|offers|)
    ensures forall u, t :: !Matches(o, u, t) ==> FindOffer(offers + [o], u, t) == FindOffer(offers, u, t)
    ensures OffersDistinct(offers) ==> OffersDistinct(offers + [o])
  {
    var r := offers + [o];
    assert forall k :: 0 <= k < |offers| ==> r[k] == offers[k];
    FoundFirst(r, o.user, o.target, |offers|);
    forall u, t | !Matches(o, u, t)
      ensures FindOffer(r, u, t) == FindOffer(offers, u, t)
    {
      match FindOffer(offers, u, t)
      case None => FoundNone(r, u, t);
      case Some(i) => FoundFirst(r, u, t, i);
    }
  }

  /** The offer FindOffer returns is determined by its contract: the first match. */
  lemma {:induction false} FoundFirst(offers: seq<TradeOffer>, user: UserId, target: OfferTarget, i: nat)
    requires i < |offers| && Matches(offers[i], user, target)
    requires forall k :: 0 <= k < i ==> !Matches(offers[k], user, target)
    ensures FindOffer(offers, user, target) == Some(i)
  {
  }

  /** FindOffer finds nothing exactly when nothing matches. */
  lemma {:induction false} FoundNone(offers: seq<TradeOffer>, user: UserId, target: OfferTarget)
    requires forall k :: 0 <= k < |offers| ==> !Matches(offers[k], user, target)
    ensures FindOffer(offers, user, target).None?
  {
  }

  /**
   * Changing the quantity of the offer found for (user, target): every pair is found where it
   * was, so that pair's offered quantity becomes q and every other pair's is unchanged.
   */
  lemma {:induction false} UpdateOffer(offers: seq<TradeOffer>, user: UserId, target: OfferTarget, q: int)
    requires FindOffer(offers, user, target).Some?
    ensures var i := FindOffer(offers, user, target).value;
      var r := offers[i := offers[i].(quantity := q)];
      FindOffer(r, user, target) == Some(i) && Offered(r, user, target) == q &&
      (forall u, t :: !(u == user && t == target) ==> Offered(r, u, t) == Offered(offers, u, t)) &&
      (OffersDistinct(offers) ==> OffersDistinct(r))
  {
    var i := FindOffer(offers, user, target).value;
    var r := offers[i := offers[i].(quantity := q)];
    assert forall k :: 0 <= k < |offers| ==> (Matches(r[k], user, target) <==> Matches(offers[k], user, target));
    assert forall k, u, t :: 0 <= k < |offers| && !(u == user && t == target) ==> (Matches(r[k], u, t) <==> Matches(offers[k], u, t));
  }

  /**
   * Deleting the only offer for (user, target): that pair is no longer offered and every other
   * pair keeps its quantity.
   */
  lemma {:induction false} RemoveOffer(offers: seq<TradeOffer>, user: UserId, target: OfferTarget)
    requires OffersDistinct(offers) && FindOffer(offers, user, target).Some?
    ensures var r := RemoveAt(offers, FindOffer(offers, user, target).value);
      FindOffer(r, user, target).None? &&
      (forall u, t :: !(u == user && t == target) ==> Offered(r, u, t) == Offered(offers, u, t)) &&
      OffersDistinct(r)
  {
    var i := FindOffer(offers, user, target).value;
    var r := RemoveAt(offers, i);
    assert forall k :: 0 <= k < |r| ==> r[k] == offers[Orig(k, i)];
    forall u, t | !(u == user && t == target)
      ensures Offered(r, u, t) == Offered(offers, u, t)
    {
      RemovedElsewhere(offers, i, u, t);
    }
    forall p, q | 0 <= p < q < |r|
      ensures r[p].user != r[q].user || r[p].target != r[q].target
    {
      assert r[p] == offers[Orig(p, i)] && r[q] == offers[Orig(q, i)];
    }
  }

  /** Index k of RemoveAt(offers, i) is index Orig(k, i) of offers. */
  function Orig(k: nat, i: nat): (j: nat)
    ensures j == k || j == k + 1
  {
    if k < i then k else k + 1
  }

  /** Deleting an offer that does not match (u, t) keeps the offer found for (u, t). */
  lemma {:induction false} RemovedElsewhere(offers: seq<TradeOffer>, i: nat, u: UserId, t: OfferTarget)
    requires i < |offers| && !Matches(offers[i], u, t)
    ensures var r := RemoveAt(offers, i);
      match FindOffer(offers, u, t)
      case None => FindOffer(r, u, t).None?
      case Some(j) => FindOffer(r, u, t).Some? && r[FindOffer(r, u, t).value] == offers[j]
  {
    var r := RemoveAt(offers, i);
    assert forall k :: 0 <= k < |r| ==> r[k] == offers[Orig(k, i)];
    assert forall k :: 0 <= k < |r| ==> (Matches(r[k], u, t) <==> Matches(offers[Orig(k, i)], u, t));
    match FindOffer(offers, u, t)
    case None =>
    case Some(j) =>
      var k := if j < i then j else j - 1;
      assert Orig(k, i) == j;
      assert Matches(r[k], u, t);
      var a := FindOffer(r, u, t).value;
      assert a <= k;
      assert Orig(a, i) <= j;
      assert Orig(a, i) == j;
  }

  // ---------------------------------------------------------------------------------------
  // Sessions
  // ---------------------------------------------------------------------------------------

  /** The session getActiveSession finds for a user: one where the user is a participant. */
  ghost function SessionOf(sessions: map<nat, TradeSession>, user: UserId): (k: Option<nat>)
    ensures k.Some? ==> k.value in sessions && sessions[k.value].HasParticipant(user)
    ensures k.None? ==> forall j :: j in sessions ==> !sessions[j].HasParticipant(user)
  {
    if exists j :: j in sessions && sessions[j].HasParticipant(user) then
      var j :| j in sessions && sessions[j].HasParticipant(user);
      Some(j)
    else
      None
  }

  /** With the no-user-in-two-sessions invariant, a user's session is the only one naming them. */
  lemma {:induction false} SessionOfUnique(sessions: map<nat, TradeSession>, next: nat, user: UserId, j: nat)
    requires SessionsValid(sessions, next) && j in sessions && sessions[j].HasParticipant(user)
    ensures SessionOf(sessions, user) == Some(j)
  {
  }

  /**
   * Replacing the offers of a session by offers that fit it keeps every session invariant:
   * the participants, and so the one-session-per-user rule, are unchanged.
   */
  lemma {:induction false} ReplaceOffers(sessions: map<nat, TradeSession>, next: nat, k: nat, offers: seq<TradeOffer>)
    requires SessionsValid(sessions, next) && k in sessions && OffersFit(sessions[k], offers)
    ensures SessionsValid(sessions[k := sessions[k].(offers := offers)], next)
    ensures forall u :: SessionOf(sessions[k := sessions[k].(offers := offers)], u) == SessionOf(sessions, u)
  {
    var s' := sessions[k := sessions[k].(offers := offers)];
    forall u
      ensures SessionOf(s', u) == SessionOf(sessions, u)
    {
      var a := SessionOf(sessions, u);
      if a.Some? {
        SessionOfUnique(s', next, u, a.value);
      }
    }
  }

  /**
   * Opening a session for two distinct users who are in none: the invariants hold with the
   * next id, and from then on both users' active session is the new one.
   */
  lemma {:induction false} OpenSession(sessions: map<nat, TradeSession>, next: nat, user1: UserId, user2: UserId)
    requires SessionsValid(sessions, next) && user1 != user2
    requires SessionOf(sessions, user1).None? && SessionOf(sessions, user2).None?
    ensures var s' := sessions[next := TradeSession(user1, user2, [])];
      SessionsValid(s', next + 1) && SessionOf(s', user1) == Some(next) && SessionOf(s', user2) == Some(next)
  {
    var s' := sessions[next := TradeSession(user1, user2, [])];
    assert next !in sessions;
    assert SessionsValid(s', next + 1);
    SessionOfUnique(s', next + 1, user1, next);
    SessionOfUnique(s', next + 1, user2, next);
  }

  /** Closing a user's session frees both of its participants. */
  lemma {:induction false} CloseSession(sessions: map<nat, TradeSession>, next: nat, k: nat)
    requires SessionsValid(sessions, next) && k in sessions
    ensures SessionsValid(sessions - {k}, next)
    ensures SessionOf(sessions - {k}, sessions[k].user1).None? && SessionOf(sessions - {k}, sessions[k].user2).None?
  {
  }

  /** Opening a session and closing it again leaves the sessions as they were. */
  lemma {:induction false} OpenThenClose(sessions: map<nat, TradeSession>, next: nat, user1: UserId, user2: UserId)
    requires SessionsValid(sessions, next)
    ensures sessions[next := TradeSession(user1, user2, [])] - {next} == sessions
  {
    assert next !in sessions;
  }

  /** getActiveSession */
  method ActiveSession(w: World, user: UserId) returns (k: Option<nat>)
    requires w.Valid()
    ensures k == SessionOf(w.sessions, user)
  {
    if exists j :: j in w.sessions && w.sessions[j].HasParticipant(user) {
      var j :| j in w.sessions && w.sessions[j].HasParticipant(user);
      SessionOfUnique(w.sessions, w.nextSessionId, user, j);
      k := Some(j);
    } else {
      k := None;
    }
  }

  /**
   * startSession: refuse a self-trade and users already trading, ask for confirmation when a
   * confirmation step is given (None: no step), and on a yes open a new session with no offers.
   */
  method StartSession(w: World, user1: UserId, user2: UserId, confirm: Option<bool>) returns (r: Result<Option<nat>>)
    requires w.Valid()
    modifies w`sessions, w`nextSessionId
    ensures w.Valid()
    ensures r.Err? <==>
      user1 == user2 || SessionOf(old(w.sessions), user1).Some? || SessionOf(old(w.sessions), user2).Some?
    ensures user1 == user2 ==> r == Err("Cannot trade with yourself")
    ensures user1 != user2 && SessionOf(old(w.sessions), user1).Some? ==> r == Err("You are already in a trade session")
    ensures user1 != user2 && SessionOf(old(w.sessions), user1).None? && SessionOf(old(w.sessions), user2).Some? ==>
      r == Err("The other user is already in a trade session")
    ensures r.Ok? ==> (r.value.None? <==> confirm == Some(false))
    ensures r.Err? || r == Ok(None) ==> w.sessions == old(w.sessions) && w.nextSessionId == old(w.nextSessionId)
    ensures r.Ok? && r.value.Some? ==>
      r.value.value == old(w.nextSessionId) && w.nextSessionId == old(w.nextSessionId) + 1 &&
      w.sessions == old(w.sessions)[r.value.value := TradeSession(user1, user2, [])] &&
      SessionOf(w.sessions, user1) == r.value && SessionOf(w.sessions, user2) == r.value
  {
    if user1 == user2 {
      return Err("Cannot trade with yourself");
    }
    var mine := ActiveSession(w, user1);
    if mine.Some? {
      return Err("You are already in a trade session");
    }
    var theirs := ActiveSession(w, user2);
    if theirs.Some? {
      return Err("The other user is already in a trade session");
    }
    if confirm == Some(false) {
      return Ok(None);
    }
    OpenSession(w.sessions, w.nextSessionId, user1, user2);
    var id := w.nextSessionId;
    w.sessions := w.sessions[id := TradeSession(user1, user2, [])];
    w.nextSessionId := id + 1;
    r := Ok(Some(id));
  }

  /**
   * cancelSession: close the user's session, offers included. (The participant check that
   * follows the lookup cannot fail: the lookup selects by participant.)
   */
  method CancelSession(w: World, user: UserId) returns (r: Result<()>)
    requires w.Valid()
    modifies w`sessions
    ensures w.Valid()
    ensures var k := SessionOf(old(w.sessions), user);
      if k.None? then r == Err(NoSession) && w.sessions == old(w.sessions)
      else r == Ok(()) && w.sessions == old(w.sessions) - {k.value} && SessionOf(w.sessions, user).None?
  {
    var k := ActiveSession(w, user);
    if k.None? {
      return Err(NoSession);
    }
    CloseSession(w.sessions, w.nextSessionId, k.value);
    w.sessions := w.sessions - {k.value};
    r := Ok(());
  }

  /**
   * The card checks of addCard as intended: the card row exists (a missing row is dereferenced),
   * is not burned, and is owned by the user.
   */
  function CardOfferCheck(cards: map<CardId, Card>, user: UserId, id: CardId): (r: Result<()>)
    ensures r.Ok? <==> id in cards && !cards[id].burned && cards[id].owner == Some(user)
    ensures id !in cards ==> r == Err(NullCard)
    ensures id in cards && cards[id].burned ==> r == Err("This card has been burned")
  {
    if id !in cards then Err(NullCard)
    else if cards[id].burned then Err("This card has been burned")
    else if cards[id].owner != Some(user) then Err("You do not own this card")
    else Ok(())
  }

  /**
   * The card checks of addCard as written: the card is loaded without its owner relation, so
   * `card.owner?.id` is undefined and never equals the user's id.
   */
  function CardOfferCheckAsWritten(cards: map<CardId, Card>, user: UserId, id: CardId): Result<()>
  {
    if id !in cards then Err(NullCard)
    else if cards[id].burned then Err("This card has been burned")
    else Err("You do not own this card")
  }

  /** As written, addCard refuses every card, and the owner of an unburned card hears that they do not own it. */
  lemma {:induction false} CardOfferAsWrittenRefusesOwner(cards: map<CardId, Card>, user: UserId, id: CardId)
    ensures CardOfferCheckAsWritten(cards, user, id).Err?
    ensures CardOfferCheck(cards, user, id).Ok? ==>
      CardOfferCheckAsWritten(cards, user, id) == Err("You do not own this card")
  {
  }

  /** addCard's effect on the session: a second offer of the same card is refused, otherwise one offer of quantity 1 is appended. */
  function WithCardOffer(offers: seq<TradeOffer>, user: UserId, id: CardId): (r: Result<seq<TradeOffer>>)
    ensures r.Err? <==> FindOffer(offers, user, CardOffer(id)).Some?
    ensures r.Err? ==> r.message == "You have already added this card to the trade session"
    ensures r.Ok? ==> |r.value| == |offers| + 1 && r.value[..|offers|] == offers
  {
    if FindOffer(offers, user, CardOffer(id)).Some? then Err("You have already added this card to the trade session")
    else Ok(offers + [TradeOffer(user, CardOffer(id), 1)])
  }

  /** An accepted card offer is offered exactly once, and every other pair keeps its quantity. */
  lemma {:induction false} CardOfferAdded(offers: seq<TradeOffer>, user: UserId, id: CardId)
    requires WithCardOffer(offers, user, id).Ok?
    ensures var r := WithCardOffer(offers, user, id).value;
      Offered(r, user, CardOffer(id)) == 1 && WithCardOffer(r, user, id).Err? &&
      (forall u, t :: !(u == user && t == CardOffer(id)) ==> Offered(r, u, t) == Offered(offers, u, t)) &&
      (OffersDistinct(offers) ==> OffersDistinct(r))
  {
    AppendOffer(offers, TradeOffer(user, CardOffer(id), 1));
  }

  /** addCard */
  method AddCard(w: World, user: UserId, id: CardId) returns (r: Result<()>)
    requires w.Valid()
    modifies w`sessions
    ensures w.Valid()
    ensures var check := CardOfferCheck(old(w.cards), user, id);
      var k := SessionOf(old(w.sessions), user);
      if check.Err? then r == check && w.sessions == old(w.sessions)
      else if k.None? then r == Err(NoSession) && w.sessions == old(w.sessions)
      else
        var s := old(w.sessions)[k.value];
        var added := WithCardOffer(s.offers, user, id);
        if added.Err? then r == Err(added.message) && w.sessions == old(w.sessions)
        else r == Ok(()) && w.sessions == old(w.sessions)[k.value := s.(offers := added.value)]
  {
    var check := CardOfferCheck(w.cards, user, id);
    if check.Err? {
      return check;
    }
    var k := ActiveSession(w, user);
    if k.None? {
      return Err(NoSession);
    }
    var s := w.sessions[k.value];
    var added := WithCardOffer(s.offers, user, id);
    if added.Err? {
      return Err(added.message);
    }
    AppendOffer(s.offers, TradeOffer(user, CardOffer(id), 1));
    ReplaceOffers(w.sessions, w.nextSessionId, k.value, added.value);
    w.sessions := w.sessions[k.value := s.(offers := added.value)];
    r := Ok(());
  }

  /**
   * removeCard: delete the user's offer of the card from their session. The transaction's
   * callback computes whether a row was deleted, but removeCard does not return the
   * transaction's value, so the caller learns nothing beyond success. The card is reloaded by
   * id; cards are never deleted, so the reload is not modelled.
   */
  method RemoveCard(w: World, user: UserId, id: CardId) returns (r: Result<()>)
    requires w.Valid()
    modifies w`sessions
    ensures w.Valid()
    ensures var k := SessionOf(old(w.sessions), user);
      if k.None? then r == Err(NoSession) && w.sessions == old(w.sessions)
      else
        var offers := old(w.sessions)[k.value].offers;
        r == Ok(()) &&
        (FindOffer(offers, user, CardOffer(id)).None? ==> w.sessions == old(w.sessions)) &&
        k.value in w.sessions && w.sessions.Keys == old(w.sessions).Keys &&
        (forall j :: j in w.sessions && j != k.value ==> w.sessions[j] == old(w.sessions)[j]) &&
        FindOffer(w.sessions[k.value].offers, user, CardOffer(id)).None? &&
        forall u, t :: !(u == user && t == CardOffer(id)) ==>
          Offered(w.sessions[k.value].offers, u, t) == Offered(offers, u, t)
  {
    var k := ActiveSession(w, user);
    if k.None? {
      return Err(NoSession);
    }
    var s := w.sessions[k.value];
    var found := FindOffer(s.offers, user, CardOffer(id));
    if found.None? {
      return Ok(());
    }
    RemoveOffer(s.offers, user, CardOffer(id));
    var rest := RemoveAt(s.offers, found.value);
    ReplaceOffers(w.sessions, w.nextSessionId, k.value, rest);
    w.sessions := w.sessions[k.value := s.(offers := rest)];
    r := Ok(());
  }

  /** addItem's effect on the session: raise the user's offer of the item by q, or append one for q. */
  function WithItemOffer(offers: seq<TradeOffer>, user: UserId, item: ItemId, q: int): (r: seq<TradeOffer>)
  {
    match FindOffer(offers, user, ItemOffer(item))
    case Some(i) => offers[i := offers[i].(quantity := offers[i].quantity + q)]
    case None => offers + [TradeOffer(user, ItemOffer(item), q)]
  }

  /** Adding q of an item raises exactly that pair's offered quantity by q. */
  lemma {:induction false} ItemOfferAdded(offers: seq<TradeOffer>, user: UserId, item: ItemId, q: int)
    ensures var r := WithItemOffer(offers, user, item, q);
      Offered(r, user, ItemOffer(item)) == Offered(offers, user, ItemOffer(item)) + q &&
      (forall u, t :: !(u == user && t == ItemOffer(item)) ==> Offered(r, u, t) == Offered(offers, u, t)) &&
      (OffersDistinct(offers) ==> OffersDistinct(r))
  {
    var found := FindOffer(offers, user, ItemOffer(item));
    if found.Some? {
      UpdateOffer(offers, user, ItemOffer(item), offers[found.value].quantity + q);
    } else {
      AppendOffer(offers, TradeOffer(user, ItemOffer(item), q));
    }
  }

  /** Raising or appending a positive offer by a participant keeps the offers fit for the session. */
  lemma {:induction false} ItemOfferFits(s: TradeSession, offers: seq<TradeOffer>, user: UserId, item: ItemId, q: int)
    requires OffersFit(s, offers) && s.HasParticipant(user) && q > 0
    ensures OffersFit(s, WithItemOffer(offers, user, item, q))
  {
    ItemOfferAdded(offers, user, item, q);
    var r := WithItemOffer(offers, user, item, q);
    forall o | o in r
      ensures OfferValid(s, o)
    {
      var k :| 0 <= k < |r| && r[k] == o;
      if k < |offers| {
        assert offers[k] in offers;
      }
    }
  }

  /**
   * The checks of addItem before the session lookup: a positive quantity, a known item, and at
   * least q of it in the inventory. Only the quantity being added is compared with the balance.
   */
  function ItemOfferCheck(items: set<ItemId>, l: Ledger, user: UserId, item: ItemId, q: int): (r: Result<()>)
    ensures r.Ok? <==> q > 0 && item in items && GetItemCount(l, user, item) >= q
    ensures q <= 0 ==> r == Err("Quantity must be greater than 0")
  {
    if q <= 0 then Err("Quantity must be greater than 0")
    else if item !in items then Err("Item not found")
    else if GetItemCount(l, user, item) < q then Err("You do not have enough of this item")
    else Ok(())
  }

  /**
   * Because only the added quantity is checked, two additions each covered by the balance can
   * together offer more than the user holds.
   */
  lemma {:induction false} RepeatedAdditionsExceedBalance()
    ensures var l: Ledger := map[("u", Gold) := 5];
      ItemOfferCheck({Gold}, l, "u", Gold, 3).Ok? &&
      Offered(WithItemOffer(WithItemOffer([], "u", Gold, 3), "u", Gold, 3), "u", ItemOffer(Gold)) == 6 &&
      GetItemCount(l, "u", Gold) == 5
  {
    ItemOfferAdded([], "u", Gold, 3);
    ItemOfferAdded(WithItemOffer([], "u", Gold, 3), "u", Gold, 3);
  }

  /** addItem */
  method AddItem(w: World, user: UserId, item: ItemId, q: int) returns (r: Result<()>)
    requires w.Valid()
    modifies w`sessions
    ensures w.Valid()
    ensures var check := ItemOfferCheck(w.items, old(w.ledger), user, item, q);
      var k := SessionOf(old(w.sessions), user);
      if check.Err? then r == check && w.sessions == old(w.sessions)
      else if k.None? then r == Err(NoSession) && w.sessions == old(w.sessions)
      else
        var s := old(w.sessions)[k.value];
        r == Ok(()) && w.sessions == old(w.sessions)[k.value := s.(offers := WithItemOffer(s.offers, user, item, q))]
  {
    var check := ItemOfferCheck(w.items, w.ledger, user, item, q);
    if check.Err? {
      return check;
    }
    var k := ActiveSession(w, user);
    if k.None? {
      return Err(NoSession);
    }
    var s := w.sessions[k.value];
    var offers := WithItemOffer(s.offers, user, item, q);
    ItemOfferFits(s, s.offers, user, item, q);
    ReplaceOffers(w.sessions, w.nextSessionId, k.value, offers);
    w.sessions := w.sessions[k.value := s.(offers := offers)];
    r := Ok(());
  }

  /**
   * removeItem's effect on the session. A quantity counts only when it is truthy (given and not
   * 0): one larger than the offer is refused, a smaller one is subtracted, and otherwise (equal,
   * 0 or omitted) the offer is deleted. A negative quantity is subtracted too, raising the offer.
   */
  function WithoutItemOffer(offers: seq<TradeOffer>, user: UserId, item: ItemId, q: Option<int>): (r: Result<seq<TradeOffer>>)
    ensures FindOffer(offers, user, ItemOffer(item)).None? ==>
      r == Err("You have not added this item to the trade session")
  {
    match FindOffer(offers, user, ItemOffer(item))
    case None => Err("You have not added this item to the trade session")
    case Some(i) =>
      var truthy := q.Some? && q.value != 0;
      if truthy && offers[i].quantity < q.value then Err("You cannot remove more items than you have added")
      else if truthy && offers[i].quantity > q.value then Ok(offers[i := offers[i].(quantity := offers[i].quantity - q.value)])
      else Ok(RemoveAt(offers, i))
  }

  /**
   * What removeItem leaves: removing less than is offered lowers the offer by that much,
   * removing all of it (or giving no quantity) withdraws the offer, removing more is refused;
   * other pairs keep their quantities.
   */
  lemma {:induction false} ItemOfferRemoved(offers: seq<TradeOffer>, user: UserId, item: ItemId, q: Option<int>)
    requires OffersDistinct(offers) && FindOffer(offers, user, ItemOffer(item)).Some?
    ensures var before := Offered(offers, user, ItemOffer(item));
      var r := WithoutItemOffer(offers, user, item, q);
      (q.Some? && q.value != 0 && before < q.value <==> r.Err?) &&
      (r.Ok? ==>
        OffersDistinct(r.value) &&
        (forall u, t :: !(u == user && t == ItemOffer(item)) ==> Offered(r.value, u, t) == Offered(offers, u, t)) &&
        (if q.Some? && q.value != 0 && before > q.value
         then Offered(r.value, user, ItemOffer(item)) == before - q.value
         else FindOffer(r.value, user, ItemOffer(item)).None?))
  {
    var i := FindOffer(offers, user, ItemOffer(item)).value;
    var truthy := q.Some? && q.value != 0;
    if truthy && offers[i].quantity > q.value {
      ItemOfferLowered(offers, user, item, q.value);
    } else if !(truthy && offers[i].quantity < q.value) {
      ItemOfferWithdrawn(offers, user, item, q);
    }
  }

  /** Removing less than is offered lowers that one offer by the amount removed. */
  lemma {:induction false} ItemOfferLowered(offers: seq<TradeOffer>, user: UserId, item: ItemId, q: int)
    requires FindOffer(offers, user, ItemOffer(item)).Some?
    requires q != 0 && Offered(offers, user, ItemOffer(item)) > q
    ensures var r := WithoutItemOffer(offers, user, item, Some(q));
      r.Ok? && Offered(r.value, user, ItemOffer(item)) == Offered(offers, user, ItemOffer(item)) - q &&
      (forall u, t :: !(u == user && t == ItemOffer(item)) ==> Offered(r.value, u, t) == Offered(offers, u, t)) &&
      (OffersDistinct(offers) ==> OffersDistinct(r.value))
  {
    var i := FindOffer(offers, user, ItemOffer(item)).value;
    assert WithoutItemOffer(offers, user, item, Some(q)) == Ok(offers[i := offers[i].(quantity := offers[i].quantity - q)]);
    UpdateOffer(offers, user, ItemOffer(item), offers[i].quantity - q);
  }

  /** Removing exactly what is offered, or giving no quantity, withdraws the offer. */
  lemma {:induction false} ItemOfferWithdrawn(offers: seq<TradeOffer>, user: UserId, item: ItemId, q: Option<int>)
    requires OffersDistinct(offers) && FindOffer(offers, user, ItemOffer(item)).Some?
    requires !(q.Some? && q.value != 0) || Offered(offers, user, ItemOffer(item)) == q.value
    ensures var r := WithoutItemOffer(offers, user, item, q);
      r.Ok? && FindOffer(r.value, user, ItemOffer(item)).None? &&
      (forall u, t :: !(u == user && t == ItemOffer(item)) ==> Offered(r.value, u, t) == Offered(offers, u, t)) &&
      OffersDistinct(r.value)
  {
    RemoveOffer(offers, user, ItemOffer(item));
  }

  /** Removing exactly what was just added restores the offers, whether or not the item was already offered. */
  lemma {:induction false} AddThenRemoveItem(offers: seq<TradeOffer>, user: UserId, item: ItemId, q: int)
    requires q > 0 && forall o :: o in offers ==> o.quantity >= 1
    ensures WithoutItemOffer(WithItemOffer(offers, user, item, q), user, item, Some(q)) == Ok(offers)
  {
    if FindOffer(offers, user, ItemOffer(item)).Some? {
      AddThenRemoveOffered(offers, user, item, q);
    } else {
      AddThenRemoveNew(offers, user, item, q);
    }
  }

  lemma {:induction false} AddThenRemoveOffered(offers: seq<TradeOffer>, user: UserId, item: ItemId, q: int)
    requires q > 0 && forall o :: o in offers ==> o.quantity >= 1
    requires FindOffer(offers, user, ItemOffer(item)).Some?
    ensures WithoutItemOffer(WithItemOffer(offers, user, item, q), user, item, Some(q)) == Ok(offers)
  {
    var i := FindOffer(offers, user, ItemOffer(item)).value;
    var added := offers[i := offers[i].(quantity := offers[i].quantity + q)];
    assert WithItemOffer(offers, user, item, q) == added;
    assert offers[i] in offers;
    FoundFirst(added, user, ItemOffer(item), i);
    assert added[i := added[i].(quantity := added[i].quantity - q)] == offers;
  }

  lemma {:induction false} AddThenRemoveNew(offers: seq<TradeOffer>, user: UserId, item: ItemId, q: int)
    requires q > 0 && FindOffer(offers, user, ItemOffer(item)).None?
    ensures WithoutItemOffer(WithItemOffer(offers, user, item, q), user, item, Some(q)) == Ok(offers)
  {
    var added := offers + [TradeOffer(user, ItemOffer(item), q)];
    assert WithItemOffer(offers, user, item, q) == added;
    AppendOffer(offers, TradeOffer(user, ItemOffer(item), q));
    assert RemoveAt(added, |offers|) == offers;
  }

  /** A successful removal keeps the offers fit for the session. */
  lemma {:induction false} ItemRemovalFits(s: TradeSession, offers: seq<TradeOffer>, user: UserId, item: ItemId, q: Option<int>)
    requires OffersFit(s, offers) && WithoutItemOffer(offers, user, item, q).Ok?
    ensures OffersFit(s, WithoutItemOffer(offers, user, item, q).value)
  {
    ItemOfferRemoved(offers, user, item, q);
    var r := WithoutItemOffer(offers, user, item, q).value;
    var i := FindOffer(offers, user, ItemOffer(item)).value;
    assert offers[i] in offers;
    forall o | o in r
      ensures OfferValid(s, o)
    {
      var k :| 0 <= k < |r| && r[k] == o;
      if |r| == |offers| {
        assert k != i ==> offers[k] in offers;
      }
    }
  }

  /** removeItem. (The participant check after the lookup cannot fail.) */
  method RemoveItem(w: World, user: UserId, item: ItemId, q: Option<int>) returns (r: Result<()>)
    requires w.Valid()
    modifies w`sessions
    ensures w.Valid()
    ensures var k := SessionOf(old(w.sessions), user);
      if k.None? then r == Err(NoSession) && w.sessions == old(w.sessions)
      else
        var s := old(w.sessions)[k.value];
        var removed := WithoutItemOffer(s.offers, user, item, q);
        if removed.Err? then r == Err(removed.message) && w.sessions == old(w.sessions)
        else r == Ok(()) && w.sessions == old(w.sessions)[k.value := s.(offers := removed.value)]
  {
    var k := ActiveSession(w, user);
    if k.None? {
      return Err(NoSession);
    }
    var s := w.sessions[k.value];
    var removed := WithoutItemOffer(s.offers, user, item, q);
    if removed.Err? {
      return Err(removed.message);
    }
    ItemRemovalFits(s, s.offers, user, item, q);
    ReplaceOffers(w.sessions, w.nextSessionId, k.value, removed.value);
    w.sessions := w.sessions[k.value := s.(offers := removed.value)];
    r := Ok(());
  }

  // ---------------------------------------------------------------------------------------
  // Executing a trade
  // ---------------------------------------------------------------------------------------

  /** The two tables a trade writes. */
  datatype Tables = Tables(cards: map<CardId, Card>, ledger: Ledger)

  /**
   * The giver and the receiver of an offer: the offering participant and the other one, told
   * apart by comparing the offering user with user1.
   */
  function Parties(s: TradeSession, u: UserId): (p: (UserId, UserId))
    ensures s.HasParticipant(u) && s.user1 != s.user2 ==> p.0 == u && p.1 != u && s.HasParticipant(p.1)
  {
    if u == s.user1 then (s.user1, s.user2) else (s.user2, s.user1)
  }

  /**
   * The giver and receiver as written: the offer's user and the session's user1 are distinct
   * objects loaded by separate joins, so the identity comparison is always false and every offer
   * is treated as user2 giving to user1.
   */
  function PartiesAsWritten(s: TradeSession, u: UserId): (p: (UserId, UserId))
    ensures p == (s.user2, s.user1)
  {
    (s.user2, s.user1)
  }

  /**
   * Applying one offer from giver to receiver: a card gets the receiver as owner (an update of a
   * missing row changes nothing); an item is debited from the giver and credited to the
   * receiver, either change failing when it would leave a negative balance.
   */
  function ApplyOfferTo(t: Tables, o: TradeOffer, giver: UserId, receiver: UserId): (r: Result<Tables>)
    ensures o.target.CardOffer? ==> r.Ok? && r.value.ledger == t.ledger
    ensures o.target.ItemOffer? ==> r.Ok? ==> r.value.cards == t.cards
  {
    match o.target
    case CardOffer(id) =>
      Ok(t.(cards := if id in t.cards then t.cards[id := t.cards[id].(owner := Some(receiver))] else t.cards))
    case ItemOffer(item) =>
      var debited := ChangedLedger(t.ledger, giver, item, -o.quantity);
      if debited.Err? then Err(debited.message)
      else
        var credited := ChangedLedger(debited.value, receiver, item, o.quantity);
        if credited.Err? then Err(credited.message) else Ok(t.(ledger := credited.value))
  }

  function ApplyOffer(t: Tables, s: TradeSession, o: TradeOffer): Result<Tables>
  {
    ApplyOfferTo(t, o, Parties(s, o.user).0, Parties(s, o.user).1)
  }

  /** The apply loop: the offers in order, stopping at the first change that fails. */
  function ApplyAll(t: Tables, s: TradeSession, offers: seq<TradeOffer>): (r: Result<Tables>)
    decreases |offers|
  {
    if offers == [] then Ok(t)
    else
      var first := ApplyOffer(t, s, offers[0]);
      if first.Err? then Err(first.message) else ApplyAll(first.value, s, offers[1..])
  }

  /**
   * What moving one item offer does to the ledger: the giver loses the quantity, the receiver
   * gains it, and every other balance is untouched; it succeeds exactly when the giver holds
   * the quantity.
   */
  lemma {:induction false} ItemOfferMoves(t: Tables, o: TradeOffer, giver: UserId, receiver: UserId)
    requires o.target.ItemOffer? && LedgerValid(t.ledger) && o.quantity >= 0 && giver != receiver
    ensures var item := o.target.item;
      var r := ApplyOfferTo(t, o, giver, receiver);
      (r.Ok? <==> GetItemCount(t.ledger, giver, item) >= o.quantity) &&
      (r.Ok? ==>
        LedgerValid(r.value.ledger) &&
        GetItemCount(r.value.ledger, giver, item) == GetItemCount(t.ledger, giver, item) - o.quantity &&
        GetItemCount(r.value.ledger, receiver, item) == GetItemCount(t.ledger, receiver, item) + o.quantity &&
        forall u, i :: (u, i) != (giver, item) && (u, i) != (receiver, item) ==>
          GetItemCount(r.value.ledger, u, i) == GetItemCount(t.ledger, u, i))
  {
    var item := o.target.item;
    var debited := ChangedLedger(t.ledger, giver, item, -o.quantity);
    if debited.Ok? {
      ChangeEffect(t.ledger, giver, item, -o.quantity);
      ChangeEffect(debited.value, receiver, item, o.quantity);
    }
  }

  /** The validation loop's check of one offer: None when it still holds, else the error thrown. */
  function OfferBroken(cards: map<CardId, Card>, l: Ledger, o: TradeOffer): (m: Option<string>)
    ensures m.None? <==>
      match o.target
      case CardOffer(id) => id in cards && cards[id].owner == Some(o.user)
      case ItemOffer(item) => GetItemCount(l, o.user, item) >= o.quantity
  {
    match o.target
    case CardOffer(id) =>
      if id in cards && cards[id].owner == Some(o.user) then None else Some("Card ownership has changed")
    case ItemOffer(item) =>
      if GetItemCount(l, o.user, item) < o.quantity then Some("Item ownership has changed") else None
  }

  /** The validation loop: the error of the first offer that no longer holds, if any. */
  function FirstBroken(cards: map<CardId, Card>, l: Ledger, offers: seq<TradeOffer>): (m: Option<string>)
    ensures m.None? <==> forall k :: 0 <= k < |offers| ==> OfferBroken(cards, l, offers[k]).None?
    decreases |offers|
  {
    if offers == [] then None
    else
      var first := OfferBroken(cards, l, offers[0]);
      if first.Some? then first
      else
        var rest := FirstBroken(cards, l, offers[1..]);
        assert forall k :: 1 <= k < |offers| ==> offers[k] == offers[1..][k - 1];
        rest
  }

  /**
   * The validation loop as written: the card is loaded without its owner relation, so
   * `offer.card?.owner?.id` is undefined and every card offer counts as broken.
   */
  function FirstBrokenAsWritten(l: Ledger, offers: seq<TradeOffer>): Option<string>
    decreases |offers|
  {
    if offers == [] then None
    else if offers[0].target.CardOffer? then Some("Card ownership has changed")
    else if GetItemCount(l, offers[0].user, offers[0].target.item) < offers[0].quantity then Some("Item ownership has changed")
    else FirstBrokenAsWritten(l, offers[1..])
  }

  /** As written, a session holding any card offer can never be executed, however valid the offer. */
  lemma {:induction false} AsWrittenRejectsCardOffers(l: Ledger, offers: seq<TradeOffer>, k: nat)
    requires k < |offers| && offers[k].target.CardOffer?
    ensures FirstBrokenAsWritten(l, offers).Some?
    decreases k
  {
    if offers[0].target.ItemOffer? && GetItemCount(l, offers[0].user, offers[0].target.item) >= offers[0].quantity {
      AsWrittenRejectsCardOffers(l, offers[1..], k - 1);
    }
  }

  /**
   * As written, an item offer of user1 flows the wrong way: user2 is debited and user1
   * credited, where the offer is meant to take the quantity from user1 and give it to user2.
   */
  lemma {:induction false} AsWrittenReversesUser1Offers(t: Tables, s: TradeSession, o: TradeOffer)
    requires LedgerValid(t.ledger) && s.user1 != s.user2 && o.user == s.user1 && o.target.ItemOffer? && o.quantity >= 1
    requires GetItemCount(t.ledger, s.user1, o.target.item) >= o.quantity
    requires GetItemCount(t.ledger, s.user2, o.target.item) >= o.quantity
    ensures var item := o.target.item;
      var intended := ApplyOffer(t, s, o);
      var written := ApplyOfferTo(t, o, PartiesAsWritten(s, o.user).0, PartiesAsWritten(s, o.user).1);
      intended.Ok? && written.Ok? &&
      GetItemCount(intended.value.ledger, s.user1, item) == GetItemCount(t.ledger, s.user1, item) - o.quantity &&
      GetItemCount(written.value.ledger, s.user1, item) == GetItemCount(t.ledger, s.user1, item) + o.quantity
  {
    ItemOfferMoves(t, o, s.user1, s.user2);
    ItemOfferMoves(t, o, s.user2, s.user1);
  }

  /**
   * Once every offer has passed validation, applying them cannot fail: each giver's balance of
   * an offered item only grows until that item's single offer debits it.
   */
  lemma {:induction false} ValidatedOffersApply(t: Tables, s: TradeSession, offers: seq<TradeOffer>)
    requires LedgerValid(t.ledger) && s.user1 != s.user2 && OffersFit(s, offers)
    requires forall k :: 0 <= k < |offers| && offers[k].target.ItemOffer? ==>
      GetItemCount(t.ledger, offers[k].user, offers[k].target.item) >= offers[k].quantity
    ensures ApplyAll(t, s, offers).Ok?
    decreases |offers|
  {
    if offers != [] {
      var o := offers[0];
      assert o in offers;
      var rest := offers[1..];
      assert forall k :: 0 <= k < |rest| ==> rest[k] == offers[k + 1];
      var p := Parties(s, o.user);
      var next := ApplyOffer(t, s, o);
      if o.target.ItemOffer? {
        ItemOfferMoves(t, o, p.0, p.1);
        forall k | 0 <= k < |rest| && rest[k].target.ItemOffer?
          ensures GetItemCount(next.value.ledger, rest[k].user, rest[k].target.item) >= rest[k].quantity
        {
          assert offers[0].user != offers[k + 1].user || offers[0].target != offers[k + 1].target;
        }
      }
      ValidatedOffersApply(next.value, s, rest);
    }
  }

  /** A session whose offers all pass validation executes without error. */
  lemma {:induction false} ValidatedSessionExecutes(cards: map<CardId, Card>, l: Ledger, s: TradeSession)
    requires LedgerValid(l) && s.user1 != s.user2 && OffersFit(s, s.offers)
    requires FirstBroken(cards, l, s.offers).None?
    ensures ApplyAll(Tables(cards, l), s, s.offers).Ok?
  {
    forall k | 0 <= k < |s.offers| && s.offers[k].target.ItemOffer?
      ensures GetItemCount(l, s.offers[k].user, s.offers[k].target.item) >= s.offers[k].quantity
    {
      assert OfferBroken(cards, l, s.offers[k]).None?;
    }
    ValidatedOffersApply(Tables(cards, l), s, s.offers);
  }

  /** The two participants' combined balance of an item. */
  function PairBalance(l: Ledger, s: TradeSession, item: ItemId): int
  {
    GetItemCount(l, s.user1, item) + GetItemCount(l, s.user2, item)
  }

  /**
   * A trade conserves items: each item's combined balance of the two participants is unchanged
   * and no other user's balance moves.
   */
  lemma {:induction false} TradeConservesItems(t: Tables, s: TradeSession, offers: seq<TradeOffer>)
    requires LedgerValid(t.ledger) && s.user1 != s.user2
    requires forall o :: o in offers ==> OfferValid(s, o)
    requires ApplyAll(t, s, offers).Ok?
    ensures var l' := ApplyAll(t, s, offers).value.ledger;
      LedgerValid(l') &&
      (forall i :: PairBalance(l', s, i) == PairBalance(t.ledger, s, i)) &&
      (forall u, i :: !s.HasParticipant(u) ==> GetItemCount(l', u, i) == GetItemCount(t.ledger, u, i))
    decreases |offers|
  {
    if offers != [] {
      var o := offers[0];
      assert o in offers;
      assert forall x :: x in offers[1..] ==> x in offers;
      var next := ApplyOffer(t, s, o);
      if o.target.ItemOffer? {
        ItemOfferMoves(t, o, Parties(s, o.user).0, Parties(s, o.user).1);
      }
      TradeConservesItems(next.value, s, offers[1..]);
    }
  }

  /** No two offers name the same card. */
  ghost predicate CardsOfferedOnce(offers: seq<TradeOffer>)
  {
    forall a, b :: 0 <= a < b < |offers| && offers[a].target.CardOffer? ==> offers[a].target != offers[b].target
  }

  /** Validated, distinct offers name each card once: both offers would need the card's owner as their user. */
  lemma {:induction false} ValidatedCardsOfferedOnce(cards: map<CardId, Card>, l: Ledger, offers: seq<TradeOffer>)
    requires OffersDistinct(offers) && FirstBroken(cards, l, offers).None?
    ensures CardsOfferedOnce(offers)
  {
    forall a, b | 0 <= a < b < |offers| && offers[a].target.CardOffer?
      ensures offers[a].target != offers[b].target
    {
      assert OfferBroken(cards, l, offers[a]).None? && OfferBroken(cards, l, offers[b]).None?;
    }
  }

  /**
   * A trade hands every offered card to the other participant and leaves every card nobody
   * offered as it was.
   */
  lemma {:induction false} TradeMovesCards(t: Tables, s: TradeSession, offers: seq<TradeOffer>)
    requires CardsOfferedOnce(offers) && ApplyAll(t, s, offers).Ok?
    ensures var c' := ApplyAll(t, s, offers).value.cards;
      c'.Keys == t.cards.Keys &&
      (forall k :: 0 <= k < |offers| && offers[k].target.CardOffer? && offers[k].target.card in t.cards ==>
        c'[offers[k].target.card] == t.cards[offers[k].target.card].(owner := Some(Parties(s, offers[k].user).1))) &&
      (forall id :: id in t.cards && (forall k :: 0 <= k < |offers| ==> offers[k].target != CardOffer(id)) ==>
        c'[id] == t.cards[id])
    decreases |offers|
  {
    if offers != [] {
      var o := offers[0];
      var rest := offers[1..];
      assert forall k :: 0 <= k < |rest| ==> rest[k] == offers[k + 1];
      var next := ApplyOffer(t, s, o);
      TradeMovesCards(next.value, s, rest);
      var c' := ApplyAll(t, s, offers).value.cards;
      assert c' == ApplyAll(next.value, s, rest).value.cards;
      forall k | 0 <= k < |offers| && offers[k].target.CardOffer? && offers[k].target.card in t.cards
        ensures c'[offers[k].target.card] == t.cards[offers[k].target.card].(owner := Some(Parties(s, offers[k].user).1))
      {
        if k == 0 {
          forall m | 0 <= m < |rest|
            ensures rest[m].target != o.target
          {
            assert offers[0].target != offers[m + 1].target;
          }
        } else {
          assert offers[0].target != offers[k].target;
          assert rest[k - 1] == offers[k];
        }
      }
      forall id | id in t.cards && (forall k :: 0 <= k < |offers| ==> offers[k].target != CardOffer(id))
        ensures c'[id] == t.cards[id]
      {
        assert offers[0].target != CardOffer(id);
        assert forall k :: 0 <= k < |rest| ==> rest[k].target != CardOffer(id);
      }
    }
  }

  /** The validation loop of executeTrade: the error of the first offer that no longer holds. */
  method CheckOffers(w: World, offers: seq<TradeOffer>) returns (m: Option<string>)
    ensures m == FirstBroken(w.cards, w.ledger, offers)
  {
    var j := 0;
    while j < |offers|
      invariant 0 <= j <= |offers|
      invariant FirstBroken(w.cards, w.ledger, offers) == FirstBroken(w.cards, w.ledger, offers[j..])
    {
      m := OfferBroken(w.cards, w.ledger, offers[j]);
      if m.Some? {
        return;
      }
      assert offers[j..][1..] == offers[j + 1..];
      j := j + 1;
    }
    assert offers[j..] == [];
    m := None;
  }

  /**
   * One step of the apply loop: update the card's owner, or debit the giver and credit the
   * receiver. When a change fails the transaction is abandoned, so what is left is unspecified.
   */
  method MoveOffer(w: World, s: TradeSession, o: TradeOffer) returns (r: Result<()>)
    requires w.Valid()
    modifies w`cards, w`ledger
    ensures w.Valid()
    ensures var a := ApplyOffer(Tables(old(w.cards), old(w.ledger)), s, o);
      if a.Ok? then r == Ok(()) && w.cards == a.value.cards && w.ledger == a.value.ledger
      else r == Err(a.message)
  {
    var p := Parties(s, o.user);
    match o.target {
      case CardOffer(cid) =>
        if cid in w.cards {
          w.SaveCard(cid, w.cards[cid].(owner := Some(p.1)));
        }
        r := Ok(());
      case ItemOffer(item) =>
        r := MoveItems(w, p.0, p.1, item, o.quantity);
    }
  }

  /** An item offer changes hands: debit the giver, then credit the receiver, each through changeItemCount. */
  method MoveItems(w: World, giver: UserId, receiver: UserId, item: ItemId, quantity: int) returns (r: Result<()>)
    requires w.Valid()
    modifies w`ledger
    ensures w.Valid()
    ensures var debited := ChangedLedger(old(w.ledger), giver, item, -quantity);
      if debited.Err? then r == Err(debited.message)
      else
        var credited := ChangedLedger(debited.value, receiver, item, quantity);
        if credited.Err? then r == Err(credited.message) else r == Ok(()) && w.ledger == credited.value
  {
    assert Floor(-(quantity as real)) == -quantity;
    assert Floor(quantity as real) == quantity;
    var debit := ChangeItemCount(w, giver, item, -(quantity as real));
    if debit.Err? {
      return Err(debit.message);
    }
    var credit := ChangeItemCount(w, receiver, item, quantity as real);
    if credit.Err? {
      return Err(credit.message);
    }
    r := Ok(());
  }

  /**
   * executeTrade: reload the session (a missing one is refused), check every offer still holds,
   * then apply the offers in order and close the session. A failing change aborts the
   * transaction, restoring the cards and the ledger.
   */
  method ExecuteTrade(w: World, id: nat) returns (r: Result<()>)
    requires w.Valid()
    modifies w`cards, w`ledger, w`sessions
    ensures w.Valid()
    ensures id !in old(w.sessions) ==>
      r == Err(NoSession) && w.cards == old(w.cards) && w.ledger == old(w.ledger) && w.sessions == old(w.sessions)
    ensures id in old(w.sessions) ==>
      var s := old(w.sessions)[id];
      var broken := FirstBroken(old(w.cards), old(w.ledger), s.offers);
      var applied := ApplyAll(Tables(old(w.cards), old(w.ledger)), s, s.offers);
      if broken.Some? then
        r == Err(broken.value) && w.cards == old(w.cards) && w.ledger == old(w.ledger) && w.sessions == old(w.sessions)
      else if applied.Err? then
        r == Err(applied.message) && w.cards == old(w.cards) && w.ledger == old(w.ledger) && w.sessions == old(w.sessions)
      else
        r == Ok(()) && w.cards == applied.value.cards && w.ledger == applied.value.ledger &&
        w.sessions == old(w.sessions) - {id}
  {
    if id !in w.sessions {
      return Err(NoSession);
    }
    var s := w.sessions[id];
    var offers := s.offers;
    var broken := CheckOffers(w, offers);
    if broken.Some? {
      return Err(broken.value);
    }

    var cards0, ledger0 := w.cards, w.ledger;
    var j := 0;
    while j < |offers|
      invariant 0 <= j <= |offers|
      invariant w.Valid() && w.sessions == old(w.sessions)
      invariant ApplyAll(Tables(cards0, ledger0), s, offers) == ApplyAll(Tables(w.cards, w.ledger), s, offers[j..])
    {
      assert offers[j..][0] == offers[j] && offers[j..][1..] == offers[j + 1..];
      var moved := MoveOffer(w, s, offers[j]);
      if moved.Err? {
        w.cards, w.ledger := cards0, ledger0;
        return moved;
      }
      j := j + 1;
    }
    assert offers[j..] == [];

    CloseSession(w.sessions, w.nextSessionId, id);
    w.sessions := w.sessions - {id};
    r := Ok(());
  }
}
