/**
 * Using an inventory item (src/commands/use.ts): a drop or claim speedup extends its effect
 * by six hours, a superdrop drops ten cards at once, and either costs one unit of the item;
 * any other item is refused and kept.
 */
module Use {
  import opened Types
  import opened Entities
  import opened Numeric
  import opened Cards
  import opened State
  import opened ItemService
  import opened CardIds
  import opened Timeout
  import opened Drop

  const NoItem: string := "You do not have this item"
  const SpeedupMs: int := 6 * HourMs
  /** The rarity a superdrop guarantees at least one of its mappers reaches. */
  const RareRarity: int := 40
  /** The size of a superdrop, and of the block of card numbers it allocates. */
  const SuperdropSize: nat := 10
  /** The TypeError thrown when the replacement mapper query finds nothing and a card reads the null mapper. */
  const NullMapper: string := "Cannot read properties of null"

  function CannotUse(item: ItemId): string
  {
    "Item `" + item + "` cannot be used"
  }

  // ---------------------------------------------------------------------------------------
  // Speedups
  // ---------------------------------------------------------------------------------------

  /**
   * The effects table after using a speedup at now: a still-active effect is extended by six
   * hours, an expired or missing one is (re)started for six hours from now.
   */
  function Extended(effects: map<(UserId, string), int>, user: UserId, effect: string, now: int): map<(UserId, string), int>
  {
    var until :=
      if (user, effect) in effects && effects[(user, effect)] > now then effects[(user, effect)] + SpeedupMs
      else now + SpeedupMs;
    effects[(user, effect) := until]
  }

  /**
   * A speedup runs until six hours past the later of now and its previous end, so it is
   * active for at least the next six hours; no other effect changes.
   */
  lemma {:induction false} ExtendedEffect(effects: map<(UserId, string), int>, user: UserId, effect: string, now: int)
    ensures var e := Extended(effects, user, effect, now);
      var previous := if (user, effect) in effects then effects[(user, effect)] else now;
      (user, effect) in e &&
      e[(user, effect)] == (if previous > now then previous else now) + SpeedupMs &&
      (forall t :: now <= t < now + SpeedupMs ==> EffectActive(e, user, effect, t)) &&
      (forall k :: k != (user, effect) ==> (k in e <==> k in effects) && (k in effects ==> e[k] == effects[k]))
  {
  }

  /**
   * For six hours after a drop speedup is used, the Drop cooldown the user sees is halved,
   * whatever the rest of the state.
   */
  lemma {:induction false} SpeedupHalvesDrop(w: World, before: map<(UserId, string), int>, user: UserId, now: int, t: int)
    requires w.effects == Extended(before, user, DropSpeedup, now)
    requires now <= t < now + SpeedupMs
    ensures GetTimeout(w, user, Drop, t).halved
  {
    ExtendedEffect(before, user, DropSpeedup, now);
  }

  // ---------------------------------------------------------------------------------------
  // Superdrop
  // ---------------------------------------------------------------------------------------

  /** Whether some mapper of the list reaches the guaranteed rarity (`randomMappers.some(...)`). */
  predicate HasRare(mappers: map<MapperId, Mapper>, ms: seq<MapperId>)
    requires forall i :: 0 <= i < |ms| ==> ms[i] in mappers
  {
    exists i :: 0 <= i < |ms| && mappers[ms[i]].rarity >= RareRarity
  }

  /** The list with slot i set to m; assigning just past the end of an empty list appends. */
  function Slotted(ms: seq<MapperId>, i: nat, m: MapperId): (r: seq<MapperId>)
    requires i < |ms| || i == |ms| == 0
  {
    if i < |ms| then ms[i := m] else [m]
  }

  /** `Math.floor(Math.random() * n)` is an index of a non-empty list, and 0 for an empty one. */
  lemma {:induction false} SlotInRange(roll: Roll, n: nat)
    ensures var i := Floor(roll * n as real); 0 <= i && (i < n || i == n == 0)
  {
    var x := roll * n as real;
    if n > 0 {
      var gap := 1.0 - roll;
      assert gap > 0.0;
      assert n as real - x == gap * n as real;
      assert gap * n as real > 0.0;
    }
  }

  /**
   * The superdrop's mappers: the drawn ones if one of them is rare; otherwise the slot
   * `floor(roll × length)` is replaced by the rare mapper the second query found, or None
   * when it found none (the slot then holds null).
   */
  function SuperdropMappers(mappers: map<MapperId, Mapper>, picked: seq<MapperId>, roll: Roll, rare: Option<MapperId>): Option<seq<MapperId>>
    requires forall i :: 0 <= i < |picked| ==> picked[i] in mappers
  {
    if HasRare(mappers, picked) then Some(picked)
    else if rare.None? then None
    else
      var i := Floor(roll * |picked| as real);
      SlotInRange(roll, |picked|);
      Some(Slotted(picked, i, rare.value))
  }

  /** The replacement query's answer: a known mapper of rarity at least 40, if any. */
  ghost predicate RareValid(mappers: map<MapperId, Mapper>, rare: Option<MapperId>)
  {
    rare.Some? ==> rare.value in mappers && mappers[rare.value].rarity >= RareRarity
  }

  /**
   * The guarantee: whenever the superdrop's mappers exist, one of them is rare, there are
   * between one and ten of them, all known, and a rare draw is kept unchanged while a draw
   * without one differs from it in exactly one slot.
   */
  lemma {:induction false} SuperdropHasRare(mappers: map<MapperId, Mapper>, picked: seq<MapperId>, roll: Roll, rare: Option<MapperId>)
    requires PickedValid(mappers, picked, SuperdropSize) && RareValid(mappers, rare)
    ensures var ms := SuperdropMappers(mappers, picked, roll, rare);
      (ms.None? <==> !HasRare(mappers, picked) && rare.None?) &&
      (ms.Some? ==>
        (forall i :: 0 <= i < |ms.value| ==> ms.value[i] in mappers) && HasRare(mappers, ms.value) &&
        |ms.value| <= SuperdropSize &&
        (HasRare(mappers, picked) ==> ms.value == picked) &&
        (!HasRare(mappers, picked) ==>
           |ms.value| == (if |picked| == 0 then 1 else |picked|) &&
           exists j :: 0 <= j < |ms.value| && ms.value[j] == rare.value &&
             forall i :: 0 <= i < |picked| && i != j ==> ms.value[i] == picked[i]))
  {
    var ms := SuperdropMappers(mappers, picked, roll, rare);
    if ms.Some? && !HasRare(mappers, picked) {
      var j := Floor(roll * |picked| as real);
      SlotInRange(roll, |picked|);
      assert ms.value == Slotted(picked, j, rare.value);
      assert ms.value[j] == rare.value;
    }
  }

  /** The random outcomes of one superdrop. */
  datatype SuperdropDraw = SuperdropDraw(
    picked: seq<MapperId>,
    replaceRoll: Roll,
    rare: Option<MapperId>,
    conditionRolls: nat -> Roll,
    foilRolls: nat -> Roll)

  ghost predicate DrawValid(mappers: map<MapperId, Mapper>, draw: SuperdropDraw)
  {
    PickedValid(mappers, draw.picked, SuperdropSize) && RareValid(mappers, draw.rare)
  }

  /** What a superdrop leaves: its result, the card table and the sequence row. */
  datatype SuperdropEffect = SuperdropEffect(result: Result<seq<CardId>>, cards: map<CardId, Card>, sequence: Option<int>)

  /**
   * The superdrop: a missing sequence row fails before anything happens; otherwise a block
   * of ten numbers is allocated (and stays allocated), and the cards are minted and saved
   * in one transaction, which a null replacement mapper aborts.
   */
  function SuperdropOutcome(cards: map<CardId, Card>, sequence: Option<int>, mappers: map<MapperId, Mapper>,
                            conditions: map<Tier, ConditionRow>, user: UserId, now: int, draw: SuperdropDraw): SuperdropEffect
    requires forall i :: 0 <= i < |draw.picked| ==> draw.picked[i] in mappers
    requires RareValid(mappers, draw.rare) && forall t: Tier :: t in conditions
    requires sequence.Some? ==> sequence.value >= 0
  {
    if sequence.None? then SuperdropEffect(Err("Card sequence not found"), cards, sequence)
    else
      var chosen := SuperdropMappers(mappers, draw.picked, draw.replaceRoll, draw.rare);
      if chosen.None? then SuperdropEffect(Err(NullMapper), cards, Some(sequence.value + SuperdropSize))
      else
        assert forall i :: 0 <= i < |chosen.value| ==> chosen.value[i] in mappers by {
          if !HasRare(mappers, draw.picked) {
            forall i | 0 <= i < |chosen.value| ensures chosen.value[i] in mappers {
            }
          }
        }
        var list := Minted(mappers, conditions, chosen.value, sequence.value, user, now, draw.conditionRolls, draw.foilRolls);
        SuperdropEffect(Ok(Firsts(list)), Saved(cards, list), Some(sequence.value + SuperdropSize))
  }

  /**
   * Every superdrop advances the sequence by exactly ten once the row exists, and a successful
   * one numbers its cards start, start + 1, … from that one block, in order, with one card per
   * chosen mapper.
   */
  lemma {:induction false} SuperdropNumbering(cards: map<CardId, Card>, sequence: Option<int>, mappers: map<MapperId, Mapper>,
                           conditions: map<Tier, ConditionRow>, user: UserId, now: int, draw: SuperdropDraw)
    requires DrawValid(mappers, draw) && forall t: Tier :: t in conditions
    requires sequence.Some? ==> sequence.value >= 0
    ensures var e := SuperdropOutcome(cards, sequence, mappers, conditions, user, now, draw);
      (sequence.None? <==> e.sequence.None?) &&
      (sequence.Some? ==> e.sequence == Some(sequence.value + 10)) &&
      (e.result.Ok? ==>
         var chosen := SuperdropMappers(mappers, draw.picked, draw.replaceRoll, draw.rare).value;
         1 <= |e.result.value| == |chosen| <= 10 &&
         e.result.value == NumberCodes(sequence.value, |chosen|))
  {
    var e := SuperdropOutcome(cards, sequence, mappers, conditions, user, now, draw);
    if e.result.Ok? {
      SuperdropHasRare(mappers, draw.picked, draw.replaceRoll, draw.rare);
      var chosen := SuperdropMappers(mappers, draw.picked, draw.replaceRoll, draw.rare).value;
      var list := Minted(mappers, conditions, chosen, sequence.value, user, now, draw.conditionRolls, draw.foilRolls);
      assert Firsts(list) == NumberCodes(sequence.value, |chosen|);
    }
  }

  /**
   * superdrop: pick the mappers (guaranteeing a rare one), allocate ten numbers, then mint
   * and save one card per mapper.
   */
  method RunSuperdrop(w: World, user: UserId, now: int, draw: SuperdropDraw) returns (r: Result<seq<CardId>>)
    requires w.Valid() && DrawValid(w.mappers, draw)
    modifies w`cards, w`cardSequence
    ensures w.Valid()
    ensures var e := SuperdropOutcome(old(w.cards), old(w.cardSequence), w.mappers, w.conditions, user, now, draw);
      r == e.result && w.cards == e.cards && w.cardSequence == e.sequence
  {
    SuperdropHasRare(w.mappers, draw.picked, draw.replaceRoll, draw.rare);
    var chosen := SuperdropMappers(w.mappers, draw.picked, draw.replaceRoll, draw.rare);
    var ids := GetNextCardId(w, SuperdropSize);
    if ids.Err? {
      return Err(ids.message);
    }
    if chosen.None? {
      return Err(NullMapper);
    }
    ghost var start: nat := old(w.cardSequence).value;
    forall i | 0 <= i < |ids.value| ensures ids.value[i] == start + i {
      IdBlockAt(start, SuperdropSize, i);
    }
    var list := MintAndSave(w, chosen.value, ids.value, start, user, now, draw.conditionRolls, draw.foilRolls);
    r := Ok(Firsts(list));
  }

  // ---------------------------------------------------------------------------------------
  // The command
  // ---------------------------------------------------------------------------------------

  /** The items /use accepts. */
  predicate Usable(item: ItemId)
  {
    item == ClaimSpeedup || item == DropSpeedup || item == Superdrop
  }

  /**
   * chatInputRun: refuse an item the user has none of; apply a speedup or run the superdrop;
   * refuse any other item without consuming it; otherwise take one unit of the item. A failed
   * superdrop throws, which rolls the consumption back (its number block stays allocated).
   */
  method UseItem(w: World, user: UserId, item: ItemId, now: int, draw: SuperdropDraw) returns (r: Result<seq<CardId>>)
    requires w.Valid() && DrawValid(w.mappers, draw)
    modifies w`ledger, w`effects, w`cards, w`cardSequence
    ensures w.Valid()
    ensures var count := GetItemCount(old(w.ledger), user, item);
      var spent := old(w.ledger)[(user, item) := count - 1];
      (count == 0 ==>
         r == Err(NoItem) && w.ledger == old(w.ledger) && w.effects == old(w.effects) &&
         w.cards == old(w.cards) && w.cardSequence == old(w.cardSequence)) &&
      (count != 0 && !Usable(item) ==>
         r == Err(CannotUse(item)) && w.ledger == old(w.ledger) && w.effects == old(w.effects) &&
         w.cards == old(w.cards) && w.cardSequence == old(w.cardSequence)) &&
      (count != 0 && (item == ClaimSpeedup || item == DropSpeedup) ==>
         r == Ok([]) && w.ledger == spent && w.effects == Extended(old(w.effects), user, item, now) &&
         w.cards == old(w.cards) && w.cardSequence == old(w.cardSequence)) &&
      (count != 0 && item == Superdrop ==>
         var e := SuperdropOutcome(old(w.cards), old(w.cardSequence), w.mappers, w.conditions, user, now, draw);
         r == e.result && w.cards == e.cards && w.cardSequence == e.sequence && w.effects == old(w.effects) &&
         w.ledger == if e.result.Ok? then spent else old(w.ledger))
  {
    var itemCount := GetItemCount(w.ledger, user, item);
    if itemCount == 0 {
      return Err(NoItem);
    }
    if item == ClaimSpeedup || item == DropSpeedup {
      ApplySpeedup(w, user, item, now);
      r := Ok([]);
    } else if item == Superdrop {
      r := RunSuperdrop(w, user, now, draw);
      if r.Err? {
        return r;
      }
    } else {
      return Err(CannotUse(item));
    }
    SpendOne(w, user, item);
  }

  /** A speedup starts or extends its user effect by six hours (SpeedupMs). */
  method ApplySpeedup(w: World, user: UserId, item: ItemId, now: int)
    requires w.Valid()
    modifies w`effects
    ensures w.Valid()
    ensures w.effects == Extended(old(w.effects), user, item, now)
  {
    w.effects := Extended(w.effects, user, item, now);
  }

  /** The used item is taken out of the inventory: one less of it, through changeItemCount. */
  method SpendOne(w: World, user: UserId, item: ItemId)
    requires w.Valid() && GetItemCount(w.ledger, user, item) != 0
    modifies w`ledger
    ensures w.Valid()
    ensures w.ledger == old(w.ledger)[(user, item) := GetItemCount(old(w.ledger), user, item) - 1]
  {
    assert Floor(-1.0) == -1;
    var _ := ChangeItemCount(w, user, item, -1.0);
  }
}
