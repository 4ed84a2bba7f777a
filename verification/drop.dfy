/**
 * The card drop (src/commands/drop.ts): choose three or, rarely, five mappers, allocate that
 * many card numbers, then in one transaction check the Drop cooldown, mint one card per
 * mapper, save them and consume the cooldown. The chosen mappers and every Math.random()
 * outcome are parameters; the weighted SQL draw itself is not modelled.
 * The condition list and the card construction are shared with the superdrop of /use.
 */
module Drop {
  import opened Types
  import opened Entities
  import opened Numeric
  import opened Cards
  import opened State
  import opened CardCode
  import opened CardIds
  import opened Timeout

  /** The channel in which drops ignore and do not consume the cooldown. */
  const TestChannel: string := "1206534692761894953"
  const FiveCardChance: real := 0.05
  const FoilChance: real := 0.05
  /** The motivation column's default, which every new card starts with. */
  const StartingMotivation: int := 7

  /** The list a condition is drawn from: two BadlyDamaged, three Poor, two Good, one Mint. */
  const ConditionPool: seq<Tier> := [BadlyDamaged, BadlyDamaged, Poor, Poor, Poor, Good, Good, Mint]

  /** `Math.random() < 0.05 ? 5 : 3` */
  function DropCount(roll: Roll): (n: nat)
    ensures n == 3 || n == 5
    ensures n == 5 <==> roll < FiveCardChance
  {
    if roll < FiveCardChance then 5 else 3
  }

  /** `conditions[Math.floor(Math.random() * conditions.length)]` */
  function PickCondition(roll: Roll): Tier
  {
    var i := Floor(roll * |ConditionPool| as real);
    assert 0 <= i < 8 by {
      assert 0.0 <= roll * 8.0 < 8.0;
    }
    ConditionPool[i]
  }

  /**
   * The odds of the list, as intervals of the roll: BadlyDamaged 2/8, Poor 3/8, Good 2/8,
   * Mint 1/8.
   */
  lemma {:induction false} PickConditionOdds(roll: Roll)
    ensures PickCondition(roll) == BadlyDamaged <==> roll < 0.25
    ensures PickCondition(roll) == Poor <==> 0.25 <= roll < 0.625
    ensures PickCondition(roll) == Good <==> 0.625 <= roll < 0.875
    ensures PickCondition(roll) == Mint <==> 0.875 <= roll
  {
    var i := Floor(roll * 8.0);
    assert i as real <= roll * 8.0 < i as real + 1.0;
    assert 0 <= i < 8;
    assert i < 2 <==> roll < 0.25;
    assert i < 5 <==> roll < 0.625;
    assert i < 7 <==> roll < 0.875;
  }

  /** A new card before its burn value is computed: unowned, unclaimed, unburned, with the column defaults. */
  function Fresh(mapper: MapperId, user: UserId, now: int, condition: Tier, foil: bool): Card
  {
    Card(mapper, None, user, None, now, condition, false, foil, 0, 0, StartingMotivation, None)
  }

  /** The i-th card of a drop: its mapper, its drawn condition and foil, and its computed burn value. */
  function MintCard(mappers: map<MapperId, Mapper>, conditions: map<Tier, ConditionRow>, mapper: MapperId,
                    user: UserId, now: int, conditionRoll: Roll, foilRoll: Roll): Card
    requires mapper in mappers && forall t: Tier :: t in conditions
  {
    var condition := PickCondition(conditionRoll);
    CalculateBurnValue(Fresh(mapper, user, now, condition, foilRoll < FoilChance),
                       mappers[mapper].rarity, conditions[condition].multiplier)
  }

  /** The cards minted for the mappers `ms`, the i-th numbered start + i, in mapper order. */
  function Minted(mappers: map<MapperId, Mapper>, conditions: map<Tier, ConditionRow>, ms: seq<MapperId>,
                  start: nat, user: UserId, now: int, conditionRolls: nat -> Roll, foilRolls: nat -> Roll): (list: seq<(CardId, Card)>)
    requires forall i :: 0 <= i < |ms| ==> ms[i] in mappers
    requires forall t: Tier :: t in conditions
    ensures |list| == |ms|
  {
    seq(|ms|, i requires 0 <= i < |ms| =>
      (Encode(start + i), MintCard(mappers, conditions, ms[i], user, now, conditionRolls(i), foilRolls(i))))
  }

  /** Every card of the list is valid for the mapper table. */
  ghost predicate ListValid(list: seq<(CardId, Card)>, mappers: map<MapperId, Mapper>)
  {
    forall k :: 0 <= k < |list| ==> list[k].1.mapper in mappers && 1 <= list[k].1.jobMotivation <= 10
  }

  /**
   * The minted cards: each depicts its mapper, is unowned and unclaimed, was dropped by the
   * user, holds the burn value of its rarity, condition and foil, and is valid.
   */
  lemma {:induction false} MintedCards(mappers: map<MapperId, Mapper>, conditions: map<Tier, ConditionRow>, ms: seq<MapperId>,
                    start: nat, user: UserId, now: int, conditionRolls: nat -> Roll, foilRolls: nat -> Roll)
    requires forall i :: 0 <= i < |ms| ==> ms[i] in mappers
    requires forall t: Tier :: t in conditions
    ensures var list := Minted(mappers, conditions, ms, start, user, now, conditionRolls, foilRolls);
      (forall i :: 0 <= i < |list| ==>
        var c := list[i].1;
        c.mapper == ms[i] && c.owner.None? && c.claimedBy.None? && c.droppedBy == user && !c.burned &&
        c.burnValue == BurnValue(mappers[ms[i]].rarity, conditions[c.condition].multiplier, c.foil)) &&
      ListValid(list, mappers)
  {
    var list := Minted(mappers, conditions, ms, start, user, now, conditionRolls, foilRolls);
    forall i | 0 <= i < |list|
      ensures var c := list[i].1;
        c.mapper == ms[i] && c.owner.None? && c.claimedBy.None? && c.droppedBy == user && !c.burned &&
        c.burnValue == BurnValue(mappers[ms[i]].rarity, conditions[c.condition].multiplier, c.foil) &&
        c.jobMotivation == StartingMotivation
    {
      var condition := PickCondition(conditionRolls(i));
      var newCard := Fresh(ms[i], user, now, condition, foilRolls(i) < FoilChance);
      assert list[i].1 == CalculateBurnValue(newCard, mappers[ms[i]].rarity, conditions[condition].multiplier);
    }
  }

  /**
   * While the numbers stay below 36^4 + 36^5, the codes of a drop decode back to the allocated
   * numbers start, start + 1, … in order, so no two cards of it share a code.
   */
  lemma {:induction false} MintedCodes(mappers: map<MapperId, Mapper>, conditions: map<Tier, ConditionRow>, ms: seq<MapperId>,
                    start: nat, user: UserId, now: int, conditionRolls: nat -> Roll, foilRolls: nat -> Roll)
    requires forall i :: 0 <= i < |ms| ==> ms[i] in mappers
    requires forall t: Tier :: t in conditions
    requires start + |ms| <= EncodableLimit
    ensures var list := Minted(mappers, conditions, ms, start, user, now, conditionRolls, foilRolls);
      (forall i :: 0 <= i < |list| ==> Decode(list[i].0) == start + i) &&
      (forall i, j :: 0 <= i < j < |list| ==> list[i].0 != list[j].0)
  {
    var list := Minted(mappers, conditions, ms, start, user, now, conditionRolls, foilRolls);
    forall i | 0 <= i < |list| ensures Decode(list[i].0) == start + i {
      DecodeEncode(start + i);
    }
    forall i, j | 0 <= i < j < |list| ensures list[i].0 != list[j].0 {
      EncodeInjective(start + i, start + j);
    }
  }

  /** save: each card of the list is written under its code, in order (a later one overwrites). */
  function Saved(cards: map<CardId, Card>, list: seq<(CardId, Card)>): map<CardId, Card>
    decreases |list|
  {
    if list == [] then cards else Saved(cards[list[0].0 := list[0].1], list[1..])
  }

  /** Saving valid cards keeps the card table valid. */
  lemma {:induction false} SavedValid(cards: map<CardId, Card>, list: seq<(CardId, Card)>, mappers: map<MapperId, Mapper>)
    requires CardsValid(cards, mappers) && ListValid(list, mappers)
    ensures CardsValid(Saved(cards, list), mappers)
    decreases |list|
  {
    if list != [] {
      var rest := list[1..];
      assert ListValid(rest, mappers) by {
        forall k | 0 <= k < |rest| ensures rest[k].1.mapper in mappers && 1 <= rest[k].1.jobMotivation <= 10 {
          assert rest[k] == list[k + 1];
        }
      }
      SavedValid(cards[list[0].0 := list[0].1], rest, mappers);
    }
  }

  /**
   * With distinct codes, saving puts every card of the list under its own code, adds exactly
   * those codes, and leaves every other card as it was.
   */
  lemma {:induction false} SavedEffect(cards: map<CardId, Card>, list: seq<(CardId, Card)>)
    requires forall i, j :: 0 <= i < j < |list| ==> list[i].0 != list[j].0
    ensures var t := Saved(cards, list);
      (forall id :: id in t <==> id in cards || id in Firsts(list)) &&
      (forall k :: 0 <= k < |list| ==> t[list[k].0] == list[k].1) &&
      (forall id :: id in cards && id !in Firsts(list) ==> t[id] == cards[id])
    decreases |list|
  {
    if list != [] {
      var rest := list[1..];
      var c1 := cards[list[0].0 := list[0].1];
      assert forall i, j :: 0 <= i < j < |rest| ==> rest[i].0 != rest[j].0 by {
        forall i, j | 0 <= i < j < |rest| ensures rest[i].0 != rest[j].0 {
          assert rest[i] == list[i + 1] && rest[j] == list[j + 1];
        }
      }
      SavedEffect(c1, rest);
      var t := Saved(cards, list);
      assert t == Saved(c1, rest);
      assert Firsts(list) == [list[0].0] + Firsts(rest);
      forall k | 0 <= k < |list| ensures t[list[k].0] == list[k].1 {
        if k > 0 {
          assert rest[k - 1] == list[k];
        } else {
          forall j | 0 <= j < |rest| ensures rest[j].0 != list[0].0 {
            assert rest[j] == list[j + 1];
          }
          assert list[0].0 !in Firsts(rest);
        }
      }
      forall id | id in cards && id !in Firsts(list) ensures t[id] == cards[id] {
        assert id != list[0].0;
        assert id !in Firsts(rest) by {
          forall j | 0 <= j < |rest| ensures Firsts(rest)[j] != id {
            assert rest[j] == list[j + 1];
          }
        }
      }
    }
  }

  /** The codes of the numbers start, start + 1, …, start + n - 1, in order. */
  function NumberCodes(start: nat, n: nat): (codes: seq<CardId>)
    ensures |codes| == n
  {
    seq(n, i requires 0 <= i < n => Encode(start + i))
  }

  /**
   * A drop numbered below 36^4 + 36^5 adds one card per mapper under the code of its number,
   * each unowned and dropped by the user, and leaves every card it does not number unchanged.
   */
  lemma {:induction false} DropAddsCards(cards: map<CardId, Card>, mappers: map<MapperId, Mapper>, conditions: map<Tier, ConditionRow>,
                      ms: seq<MapperId>, start: nat, user: UserId, now: int, conditionRolls: nat -> Roll, foilRolls: nat -> Roll)
    requires forall i :: 0 <= i < |ms| ==> ms[i] in mappers
    requires forall t: Tier :: t in conditions
    requires start + |ms| <= EncodableLimit
    ensures var t := Saved(cards, Minted(mappers, conditions, ms, start, user, now, conditionRolls, foilRolls));
      var codes := NumberCodes(start, |ms|);
      (forall i :: 0 <= i < |ms| ==>
        codes[i] in t && t[codes[i]].mapper == ms[i] && t[codes[i]].owner.None? && t[codes[i]].droppedBy == user) &&
      (forall id :: id in cards && id !in codes ==> id in t && t[id] == cards[id])
  {
    var list := Minted(mappers, conditions, ms, start, user, now, conditionRolls, foilRolls);
    MintedCards(mappers, conditions, ms, start, user, now, conditionRolls, foilRolls);
    MintedCodes(mappers, conditions, ms, start, user, now, conditionRolls, foilRolls);
    SavedEffect(cards, list);
    assert Firsts(list) == NumberCodes(start, |ms|);
  }

  /** The mappers the SQL draw returned: at most `limit` known, undeleted mappers. */
  ghost predicate PickedValid(mappers: map<MapperId, Mapper>, picked: seq<MapperId>, limit: nat)
  {
    |picked| <= limit && forall i :: 0 <= i < |picked| ==> picked[i] in mappers && !mappers[picked[i]].deleted
  }

  /** The random outcomes of one drop: the five-card roll, the drawn mappers, and per card a condition and a foil roll. */
  datatype DropDraw = DropDraw(countRoll: Roll, picked: seq<MapperId>, conditionRolls: nat -> Roll, foilRolls: nat -> Roll)

  /** What the command reports: the remaining cooldown, or the codes of the dropped cards. */
  datatype DropOutcome = Blocked(remaining: int) | Dropped(codes: seq<CardId>)

  /**
   * The loop of the transaction: one card per mapper, numbered by the allocated ids in
   * order, its burn value computed before it is saved.
   */
  method BuildCards(w: World, ms: seq<MapperId>, ids: seq<int>, ghost start: nat, user: UserId, now: int,
                    conditionRolls: nat -> Roll, foilRolls: nat -> Roll) returns (list: seq<(CardId, Card)>)
    requires forall i :: 0 <= i < |ms| ==> ms[i] in w.mappers
    requires forall t: Tier :: t in w.conditions
    requires |ms| <= |ids| && forall i :: 0 <= i < |ids| ==> ids[i] == start + i
    ensures list == Minted(w.mappers, w.conditions, ms, start, user, now, conditionRolls, foilRolls)
  {
    ghost var minted := Minted(w.mappers, w.conditions, ms, start, user, now, conditionRolls, foilRolls);
    list := [];
    var i := 0;
    while i < |ms|
      invariant 0 <= i <= |ms|
      invariant list == minted[..i]
    {
      var code := StringId(ids[i]);
      var condition := ConditionPool[Floor(conditionRolls(i) * |ConditionPool| as real)];
      var card := Fresh(ms[i], user, now, condition, foilRolls(i) < FoilChance);
      card := CalculateBurnValue(card, w.mappers[ms[i]].rarity, w.conditions[condition].multiplier);
      list := list + [(code, card)];
      assert minted[..i + 1] == minted[..i] + [minted[i]];
      i := i + 1;
    }
    assert minted[..|ms|] == minted;
  }

  /** The save of a list of cards, one card at a time, on a copy of the table. */
  method SaveAll(cards: map<CardId, Card>, list: seq<(CardId, Card)>) returns (table: map<CardId, Card>)
    ensures table == Saved(cards, list)
  {
    table := cards;
    var k := 0;
    while k < |list|
      invariant 0 <= k <= |list|
      invariant Saved(cards, list) == Saved(table, list[k..])
    {
      assert list[k..][0] == list[k] && list[k..][1..] == list[k + 1..];
      table := table[list[k].0 := list[k].1];
      k := k + 1;
    }
  }

  /**
   * The body of the drop transaction once the cooldown has let it through: mint one card per
   * mapper and save them all.
   */
  method MintAndSave(w: World, ms: seq<MapperId>, ids: seq<int>, ghost start: nat, user: UserId, now: int,
                     conditionRolls: nat -> Roll, foilRolls: nat -> Roll) returns (list: seq<(CardId, Card)>)
    requires w.Valid() && forall i :: 0 <= i < |ms| ==> ms[i] in w.mappers
    requires |ms| <= |ids| && forall i :: 0 <= i < |ids| ==> ids[i] == start + i
    modifies w`cards
    ensures w.Valid()
    ensures list == Minted(w.mappers, w.conditions, ms, start, user, now, conditionRolls, foilRolls)
    ensures w.cards == Saved(old(w.cards), list)
  {
    list := BuildCards(w, ms, ids, start, user, now, conditionRolls, foilRolls);
    MintedCards(w.mappers, w.conditions, ms, start, user, now, conditionRolls, foilRolls);
    SavedValid(w.cards, list, w.mappers);
    var table := SaveAll(w.cards, list);
    w.cards := table;
  }

  /**
   * chatInputRun: allocate the card numbers first (in their own transaction, so they stay
   * allocated whatever happens next), then refuse a blocked drop outside the test channel;
   * otherwise mint and save one card per mapper and consume the cooldown, except in the
   * test channel.
   */
  method DropCards(w: World, user: UserId, channel: string, now: int, draw: DropDraw) returns (r: Result<DropOutcome>)
    requires w.Valid() && PickedValid(w.mappers, draw.picked, DropCount(draw.countRoll))
    modifies w`cardSequence, w`cards, w`timeouts, w`ledger
    ensures w.Valid()
    ensures w.ledger == old(w.ledger)
    ensures old(w.cardSequence).None? ==>
      r == Err("Card sequence not found") && w.cards == old(w.cards) && w.timeouts == old(w.timeouts) && w.cardSequence == old(w.cardSequence)
    ensures old(w.cardSequence).Some? ==>
      var start := old(w.cardSequence).value;
      var v := old(GetTimeout(w, user, Drop, now));
      var test := channel == TestChannel;
      w.cardSequence == Some(start + DropCount(draw.countRoll)) &&
      (Expired(v, now) && !test ==>
         r == Ok(Blocked(RemainingTime(v, now))) && w.cards == old(w.cards) && w.timeouts == old(w.timeouts)) &&
      (!Expired(v, now) || test ==>
         var list := Minted(w.mappers, w.conditions, draw.picked, start, user, now, draw.conditionRolls, draw.foilRolls);
         r == Ok(Dropped(Firsts(list))) && w.cards == Saved(old(w.cards), list) &&
         w.timeouts == if test then old(w.timeouts) else old(w.timeouts)[(user, Drop) := now])
  {
    var count := if draw.countRoll < FiveCardChance then 5 else 3;
    var ids := GetNextCardId(w, count);
    if ids.Err? {
      return Err(ids.message);
    }
    ghost var start: nat := old(w.cardSequence).value;
    forall i | 0 <= i < |ids.value| ensures ids.value[i] == start + i {
      IdBlockAt(start, count, i);
    }
    var ratelimit := GetTimeout(w, user, Drop, now);
    var test := channel == TestChannel;
    if Expired(ratelimit, now) && !test {
      return Ok(Blocked(RemainingTime(ratelimit, now)));
    }
    var list := MintAndSave(w, draw.picked, ids.value, start, user, now, draw.conditionRolls, draw.foilRolls);
    if !test {
      var _ := Consume(w, ratelimit, now);
    }
    r := Ok(Dropped(Firsts(list)));
  }
}
