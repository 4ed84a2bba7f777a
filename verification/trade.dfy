/**
 * The direct two-card trade (chatInputRun in src/commands/trade.ts): checks before the
 * buttons, a two-press accept/cancel handshake, and a commit that swaps the owners.
 */
module Trade {
  import opened Types
  import opened Entities
  import opened Cards
  import opened State
  import opened CardService

  /** A press of the accept (cancel = false) or cancel button. */
  datatype Press = Press(user: UserId, cancel: bool)

  datatype TradeOutcome =
    | SelfTrade
    | CardNotFound
    | NotYourCard
    | NotTheirCard
    | CardInJob(id: CardId)
    | Cancelled
    | Waiting
    | NotAgreed
    | Crashed
    | TradeFailed
    | Swapped

  /**
   * The checks before the buttons: no self-trade, both cards unburned and owned, the offered
   * card the initiator's and the requested card the other user's, neither in a job slot.
   */
  function Precheck(cards: map<CardId, Card>, jobs: map<(UserId, Slot), JobAssignments.JobAssignment>,
                    user1: UserId, user2: UserId, offer: CardId, receive: CardId): (o: Option<TradeOutcome>)
    ensures o.None? <==>
      user1 != user2 && offer != receive &&
      FindUnburned(cards, offer).Some? && cards[offer].owner == Some(user1) &&
      FindUnburned(cards, receive).Some? && cards[receive].owner == Some(user2) &&
      GetCardUsage(jobs, offer) == Unused && GetCardUsage(jobs, receive) == Unused
  {
    var card1 := FindUnburned(cards, offer);
    var card2 := FindUnburned(cards, receive);
    if user1 == user2 then Some(SelfTrade)
    else if card1.None? || card2.None? || card1.value.owner.None? || card2.value.owner.None? then Some(CardNotFound)
    else if card1.value.owner != Some(user1) then Some(NotYourCard)
    else if card2.value.owner != Some(user2) then Some(NotTheirCard)
    else if GetCardUsage(jobs, offer) == JobSlot then Some(CardInJob(offer))
    else if GetCardUsage(jobs, receive) == JobSlot then Some(CardInJob(receive))
    else None
  }

  /** The presses the collector delivers: only those by the two participants, in order. */
  function Delivered(presses: seq<Press>, user1: UserId, user2: UserId): (d: seq<Press>)
    ensures |d| <= |presses|
    ensures forall p :: p in d ==> p.user == user1 || p.user == user2
  {
    if presses == [] then []
    else
      var last := presses[|presses| - 1];
      Delivered(presses[..|presses| - 1], user1, user2) + (if last.user == user1 || last.user == user2 then [last] else [])
  }

  /** Delivering from a prefix of the presses gives a prefix of the delivered presses. */
  lemma {:induction false} DeliveredPrefix(presses: seq<Press>, k: nat, user1: UserId, user2: UserId)
    requires k <= |presses|
    ensures Delivered(presses[..k], user1, user2) <= Delivered(presses, user1, user2)
  {
    if k < |presses| {
      var init := presses[..|presses| - 1];
      assert init[..k] == presses[..k];
      DeliveredPrefix(init, k, user1, user2);
      assert presses[..k] == init[..k];
    } else {
      assert presses[..k] == presses;
    }
  }

  /** Whether the first two delivered presses contain a cancel that aborts: the first press, or the second by a user who has not agreed. */
  predicate CancelsFirst(d: seq<Press>)
  {
    (|d| >= 1 && d[0].cancel) || (|d| >= 2 && d[1].cancel && d[1].user != d[0].user)
  }

  /** The handshake's verdict from the delivered presses. */
  function HandshakeVerdict(d: seq<Press>): TradeOutcome
  {
    if CancelsFirst(d) then Cancelled
    else if |d| < 2 then Waiting
    else if d[0].user == d[1].user then NotAgreed
    else Swapped
  }

  /**
   * The trade goes ahead exactly when the first two delivered presses are accepts by the two
   * different participants; a lone participant pressing twice never completes it.
   */
  lemma {:induction false} HandshakeVerdictCases(d: seq<Press>, user1: UserId, user2: UserId)
    requires user1 != user2 && forall p :: p in d ==> p.user == user1 || p.user == user2
    ensures HandshakeVerdict(d) == Swapped <==>
      |d| >= 2 && !d[0].cancel && !d[1].cancel && {d[0].user, d[1].user} == {user1, user2}
    ensures HandshakeVerdict(d) == Cancelled <==> CancelsFirst(d)
  {
    if |d| >= 2 && d[0].user != d[1].user {
      assert d[0] in d && d[1] in d;
    }
  }

  /**
   * The two-press loop: each pass waits for the next participant press; a cancel by someone who
   * has not agreed aborts, anything else adds the presser to the agreed set. The trade proceeds
   * only when two users agreed. Without two participant presses the command is still waiting.
   */
  method Handshake(presses: seq<Press>, user1: UserId, user2: UserId) returns (o: TradeOutcome)
    ensures o == HandshakeVerdict(Delivered(presses, user1, user2))
  {
    var agreed: set<UserId> := {};
    var count := 0;
    var k := 0;
    ghost var d: seq<Press> := [];
    assert presses[..0] == [];
    while k < |presses| && count < 2
      invariant 0 <= k <= |presses|
      invariant d == Delivered(presses[..k], user1, user2)
      invariant count == |d| <= 2
      invariant !CancelsFirst(d)
      invariant AgreedBy(agreed, d)
    {
      var p := presses[k];
      DeliveredStep(presses, k, user1, user2);
      k := k + 1;
      if p.user == user1 || p.user == user2 {
        AgreedStep(agreed, d, p);
        d := d + [p];
        if p.cancel && p.user !in agreed {
          DeliveredPrefix(presses, k, user1, user2);
          VerdictFromPrefix(d, Delivered(presses, user1, user2));
          return Cancelled;
        }
        agreed := agreed + {p.user};
        count := count + 1;
      }
    }
    DeliveredPrefix(presses, k, user1, user2);
    if count < 2 {
      assert presses[..k] == presses;
      return Waiting;
    }
    VerdictFromPrefix(d, Delivered(presses, user1, user2));
    PairSize(d[0].user, d[1].user);
    if |agreed| != 2 {
      return NotAgreed;
    }
    return Swapped;
  }

  /** One more press is delivered exactly when a participant made it. */
  lemma {:induction false} DeliveredStep(presses: seq<Press>, k: nat, user1: UserId, user2: UserId)
    requires k < |presses|
    ensures var p := presses[k];
      Delivered(presses[..k + 1], user1, user2) ==
      Delivered(presses[..k], user1, user2) + (if p.user == user1 || p.user == user2 then [p] else [])
  {
    assert presses[..k + 1][..k] == presses[..k];
  }

  /** The agreed set after the first presses: the users who pressed, as long as none aborted. */
  ghost predicate AgreedBy(agreed: set<UserId>, d: seq<Press>)
  {
    (|d| == 0 ==> agreed == {}) &&
    (|d| == 1 ==> agreed == {d[0].user}) &&
    (|d| == 2 ==> agreed == {d[0].user, d[1].user})
  }

  /** One participant press: it aborts exactly as a cancel by a user who has not agreed; otherwise the presser agrees. */
  lemma {:induction false} AgreedStep(agreed: set<UserId>, d: seq<Press>, p: Press)
    requires AgreedBy(agreed, d) && |d| < 2 && !CancelsFirst(d)
    ensures CancelsFirst(d + [p]) <==> p.cancel && p.user !in agreed
    ensures !CancelsFirst(d + [p]) ==> AgreedBy(agreed + {p.user}, d + [p])
  {
    assert (d + [p])[|d|] == p;
    if |d| == 1 {
      assert (d + [p])[0] == d[0];
    }
  }

  /** Two users make a set of two exactly when they differ. */
  lemma {:induction false} PairSize(a: UserId, b: UserId)
    ensures |{a, b}| == 2 <==> a != b
  {
    if a == b {
      assert {a, b} == {a};
    }
  }

  /** The verdict is settled by the first two delivered presses, or by an earlier cancel. */
  lemma {:induction false} VerdictFromPrefix(d: seq<Press>, full: seq<Press>)
    requires d <= full && (|d| >= 2 || CancelsFirst(d))
    ensures HandshakeVerdict(full) == HandshakeVerdict(d)
  {
    assert full[..|d|] == d;
    if |d| >= 1 {
      assert full[0] == d[0];
    }
    if |d| >= 2 {
      assert full[1] == d[1];
    }
  }

  /** The two owner updates of the commit: each card gets the other card's owner; nothing else changes. */
  function SwapOwners(cards: map<CardId, Card>, a: CardId, b: CardId): (c: map<CardId, Card>)
    requires a in cards && b in cards
    ensures c.Keys == cards.Keys
    ensures c[a].owner == cards[b].owner && (a != b ==> c[b].owner == cards[a].owner)
    ensures forall k :: k in cards ==> c[k].(owner := cards[k].owner) == cards[k]
  {
    var ownerA, ownerB := cards[a].owner, cards[b].owner;
    cards[a := cards[a].(owner := ownerB)][b := cards[b].(owner := ownerA)]
  }

  /** Swapping back undoes a swap. */
  lemma {:induction false} SwapOwnersInvolution(cards: map<CardId, Card>, a: CardId, b: CardId)
    requires a in cards && b in cards && a != b
    ensures SwapOwners(SwapOwners(cards, a, b), a, b) == cards
  {
  }

  /**
   * The commit transaction: reload both unburned cards, re-check job usage (dereferencing a card
   * that has vanished crashes the transaction), re-check both owners, then swap.
   */
  method CommitTrade(w: World, user1: UserId, user2: UserId, offer: CardId, receive: CardId) returns (o: TradeOutcome)
    requires w.Valid()
    modifies w`cards
    ensures w.Valid()
    ensures o == Swapped <==>
      FindUnburned(old(w.cards), offer).Some? && FindUnburned(old(w.cards), receive).Some? &&
      GetCardUsage(w.jobs, offer) == Unused && GetCardUsage(w.jobs, receive) == Unused &&
      old(w.cards)[offer].owner == Some(user1) && old(w.cards)[receive].owner == Some(user2)
    ensures o == Swapped ==> w.cards == SwapOwners(old(w.cards), offer, receive)
    ensures o != Swapped ==> unchanged(w)
    ensures o == TradeFailed ==> FindUnburned(old(w.cards), offer).Some? && FindUnburned(old(w.cards), receive).Some?
  {
    var carda := FindUnburned(w.cards, offer);
    var cardb := FindUnburned(w.cards, receive);
    if carda.None? {
      return Crashed;
    }
    if GetCardUsage(w.jobs, offer) == JobSlot {
      return CardInJob(offer);
    }
    if cardb.None? {
      return Crashed;
    }
    if GetCardUsage(w.jobs, receive) == JobSlot {
      return CardInJob(receive);
    }
    if carda.value.owner != Some(user1) || cardb.value.owner != Some(user2) {
      return TradeFailed;
    }
    w.cards := SwapOwners(w.cards, offer, receive);
    return Swapped;
  }

  /** The whole command: checks, handshake, then the commit. Cards change only by a swap of their two owners. */
  method RunTrade(w: World, user1: UserId, user2: UserId, offer: CardId, receive: CardId, presses: seq<Press>)
    returns (o: TradeOutcome)
    requires w.Valid()
    modifies w`cards
    ensures w.Valid()
    ensures Precheck(old(w.cards), w.jobs, user1, user2, offer, receive).Some? ==>
      o == Precheck(old(w.cards), w.jobs, user1, user2, offer, receive).value && unchanged(w)
    ensures Precheck(old(w.cards), w.jobs, user1, user2, offer, receive).None? &&
            HandshakeVerdict(Delivered(presses, user1, user2)) != Swapped ==>
      o == HandshakeVerdict(Delivered(presses, user1, user2)) && unchanged(w)
    ensures o == Swapped <==>
      Precheck(old(w.cards), w.jobs, user1, user2, offer, receive).None? &&
      HandshakeVerdict(Delivered(presses, user1, user2)) == Swapped
    ensures o == Swapped ==> w.cards == SwapOwners(old(w.cards), offer, receive)
    ensures o != Swapped ==> unchanged(w)
  {
    var pre := Precheck(w.cards, w.jobs, user1, user2, offer, receive);
    if pre.Some? {
      return pre.value;
    }
    var verdict := Handshake(presses, user1, user2);
    if verdict != Swapped {
      return verdict;
    }
    o := CommitTrade(w, user1, user2, offer, receive);
  }
}
