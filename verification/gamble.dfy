/**
 * The slot machine (src/commands/gamble.ts): bet bounds, the one-time warning prompt, a gold
 * precheck, three reels, the combination count and multiplier, and the payout transaction
 * that re-checks the balance before paying `bet × multiplier − bet`.
 */
module Gamble {
  import opened Types
  import opened Entities
  import opened State
  import opened ItemService

  /**
   * The reel symbols, in the order of the weight table; Blank is the empty string
   * `weightedRandom` falls back to when the cumulative probabilities never exceed the roll.
   */
  datatype Symbol = Clover | Cherry | Heart | Lemon | Orange | Skull | Melon | Grapes | Star | MoneyBag | Gem | Crown | Blank

  const MinBet: int := 1
  const MaxBet: int := 100
  const TooSmall: string := "You must gamble at least 1 gold"
  const TooLarge: string := "You cannot gamble more than 100 gold"
  const GamblingCancelled: string := "You have cancelled the gambling command"
  /** The prompt is deleted without a reply when nobody answers it within a minute. */
  const PromptExpired: string := ""
  const NotEnoughGold: string := "You do not have enough gold to gamble that amount"
  const RaceCondition: string := "Race condition detected. You do not have enough gold to gamble that amount"

  /** The key a symbol repeated `count` times forms (`symbol.repeat(count)`). */
  function Repeat(s: Symbol, count: nat): (key: seq<Symbol>)
    ensures |key| == count && forall i :: 0 <= i < count ==> key[i] == s
  {
    seq(count, _ => s)
  }

  /** The winning combinations and their multipliers. */
  const SpecialCombos: map<seq<Symbol>, nat> := map[
    [Clover] := 2,
    [Cherry, Cherry] := 3,
    [Heart, Heart] := 10,
    [Clover, Clover] := 15,
    [Lemon, Lemon, Lemon] := 25,
    [Orange, Orange, Orange] := 25,
    [Grapes, Grapes, Grapes] := 25,
    [Heart, Heart, Heart] := 50,
    [Cherry, Cherry, Cherry] := 40,
    [Melon, Melon, Melon] := 50,
    [Gem, Star, Gem] := 50,
    [Gem, MoneyBag, Gem] := 50,
    [Crown, MoneyBag, Crown] := 65,
    [Crown, Gem, Crown] := 65,
    [Crown, Star, Crown] := 65,
    [Clover, Clover, Clover] := 75,
    [Star, Star, Star] := 100,
    [MoneyBag, MoneyBag, MoneyBag] := 100,
    [Gem, Gem, Gem] := 150,
    [Crown, Crown, Crown] := 333]

  /** What a key adds to the multiplier: its table value, or 0 when the table lacks it. */
  function ComboValue(table: map<seq<Symbol>, nat>, key: seq<Symbol>): nat
  {
    if key in table then table[key] else 0
  }

  // ---------------------------------------------------------------------------------------
  // countCombos
  // ---------------------------------------------------------------------------------------

  /** The sum of the counts. */
  function Total(counts: seq<(Symbol, nat)>): nat
  {
    if counts == [] then 0 else Total(counts[..|counts| - 1]) + counts[|counts| - 1].1
  }

  /** Raising one count by one raises the total by one. */
  lemma {:induction false} TotalIncrement(counts: seq<(Symbol, nat)>, k: int)
    requires 0 <= k < |counts|
    ensures Total(counts[k := (counts[k].0, counts[k].1 + 1)]) == Total(counts) + 1
    decreases |counts|
  {
    var updated := counts[k := (counts[k].0, counts[k].1 + 1)];
    var last := |counts| - 1;
    assert updated[..last] == if k < last then counts[..last][k := (counts[k].0, counts[k].1 + 1)] else counts[..last];
    if k < last {
      TotalIncrement(counts[..last], k);
    }
  }

  /** The position of a symbol in a count list, if it has one. */
  function Find(counts: seq<(Symbol, nat)>, s: Symbol): (k: int)
    ensures -1 <= k < |counts|
    ensures k >= 0 ==> counts[k].0 == s
    ensures k < 0 ==> s !in Firsts(counts)
    decreases |counts|
  {
    if counts == [] then -1
    else if counts[|counts| - 1].0 == s then |counts| - 1
    else
      var k := Find(counts[..|counts| - 1], s);
      assert Firsts(counts) == Firsts(counts[..|counts| - 1]) + [counts[|counts| - 1].0];
      k
  }

  /**
   * One step of countCombos: the count of `s` goes up by one, starting from 0 (appended at
   * the end) when `s` has no entry yet; no other entry changes.
   */
  function Tally(counts: seq<(Symbol, nat)>, s: Symbol): (next: seq<(Symbol, nat)>)
    requires forall a, b :: 0 <= a < b < |counts| ==> counts[a].0 != counts[b].0
    ensures forall a, b :: 0 <= a < b < |next| ==> next[a].0 != next[b].0
    ensures Firsts(next) == if s in Firsts(counts) then Firsts(counts) else Firsts(counts) + [s]
    ensures forall m :: 0 <= m < |next| ==>
      next[m].1 == (if m < |counts| then counts[m].1 else 0) + (if next[m].0 == s then 1 else 0)
    ensures Total(next) == Total(counts) + 1
  {
    var k := Find(counts, s);
    if k < 0 then
      var next := counts + [(s, 1)];
      assert Firsts(next) == Firsts(counts) + [s];
      assert next[..|counts|] == counts;
      next
    else
      TotalIncrement(counts, k);
      var next := counts[k := (s, counts[k].1 + 1)];
      assert Firsts(next) == Firsts(counts);
      next
  }

  /** The counts of the reels, tallied in order (the object countCombos builds). */
  function Counts(reels: seq<Symbol>): (counts: seq<(Symbol, nat)>)
    ensures forall a, b :: 0 <= a < b < |counts| ==> counts[a].0 != counts[b].0
    decreases |reels|
  {
    if reels == [] then [] else Tally(Counts(reels[..|reels| - 1]), reels[|reels| - 1])
  }

  /** One tally step keeps every entry counting its symbol's occurrences in the reels so far. */
  lemma {:induction false} TallyOccurrences(counts: seq<(Symbol, nat)>, prefix: seq<Symbol>, s: Symbol)
    requires forall a, b :: 0 <= a < b < |counts| ==> counts[a].0 != counts[b].0
    requires forall k :: 0 <= k < |counts| ==> counts[k].1 == multiset(prefix)[counts[k].0] && counts[k].1 >= 1
    requires forall i :: 0 <= i < |prefix| ==> prefix[i] in Firsts(counts)
    ensures var next := Tally(counts, s);
      forall m :: 0 <= m < |next| ==> next[m].1 == multiset(prefix + [s])[next[m].0] && next[m].1 >= 1
  {
    var next := Tally(counts, s);
    assert multiset(prefix + [s]) == multiset(prefix) + multiset{s};
    forall m | 0 <= m < |next| ensures next[m].1 == multiset(prefix + [s])[next[m].0] && next[m].1 >= 1 {
      if m < |counts| {
        assert Firsts(next)[m] == Firsts(counts)[m];
      } else {
        assert Firsts(next)[m] == s;
        assert s !in prefix;
      }
    }
  }

  /** Each entry of the tally counts its symbol's occurrences in the reels, at least once. */
  lemma {:induction false} CountsOccurrences(reels: seq<Symbol>)
    ensures var counts := Counts(reels);
      forall k :: 0 <= k < |counts| ==> counts[k].1 == multiset(reels)[counts[k].0] && counts[k].1 >= 1
    decreases |reels|
  {
    if reels != [] {
      var prefix := reels[..|reels| - 1];
      assert reels == prefix + [reels[|reels| - 1]];
      CountsOccurrences(prefix);
      CountsSymbols(prefix);
      TallyOccurrences(Counts(prefix), prefix, reels[|reels| - 1]);
    }
  }

  /** The tally names exactly the symbols that occur on the reels. */
  lemma {:induction false} CountsSymbols(reels: seq<Symbol>)
    ensures var counts := Counts(reels);
      (forall i :: 0 <= i < |reels| ==> reels[i] in Firsts(counts)) &&
      (forall k :: 0 <= k < |counts| ==> counts[k].0 in reels)
    decreases |reels|
  {
    if reels != [] {
      var prefix := reels[..|reels| - 1];
      var s := reels[|reels| - 1];
      assert reels == prefix + [s];
      CountsSymbols(prefix);
      var counts := Counts(prefix);
      var next := Counts(reels);
      assert next == Tally(counts, s);
      forall i | 0 <= i < |reels| ensures reels[i] in Firsts(next) {
        if i < |prefix| {
          assert reels[i] == prefix[i];
        }
      }
      forall k | 0 <= k < |next| ensures next[k].0 in reels {
        if k < |counts| {
          assert Firsts(next)[k] == Firsts(counts)[k];
        }
      }
    }
  }

  /** The counts sum to the number of reels. */
  lemma {:induction false} CountsTotal(reels: seq<Symbol>)
    ensures Total(Counts(reels)) == |reels|
    decreases |reels|
  {
    if reels != [] {
      CountsTotal(reels[..|reels| - 1]);
    }
  }

  /**
   * The tally holds one entry per distinct symbol of the reels with how often it occurs; so
   * every count is at least 1 and they sum to the number of reels.
   */
  lemma {:induction false} CountsCorrect(reels: seq<Symbol>)
    ensures var counts := Counts(reels);
      (forall k :: 0 <= k < |counts| ==> counts[k].1 == multiset(reels)[counts[k].0] && counts[k].1 >= 1) &&
      (forall i :: 0 <= i < |reels| ==> reels[i] in Firsts(counts)) &&
      (forall k :: 0 <= k < |counts| ==> counts[k].0 in reels) &&
      Total(counts) == |reels|
  {
    CountsOccurrences(reels);
    CountsSymbols(reels);
    CountsTotal(reels);
  }

  /** countCombos: tallies each reel's symbol in turn. */
  method CountCombos(reels: seq<Symbol>) returns (counts: seq<(Symbol, nat)>)
    ensures counts == Counts(reels)
  {
    counts := [];
    var i := 0;
    while i < |reels|
      invariant 0 <= i <= |reels|
      invariant counts == Counts(reels[..i])
    {
      assert reels[..i + 1][..i] == reels[..i];
      counts := Tally(counts, reels[i]);
      i := i + 1;
    }
    assert reels[..i] == reels;
  }

  // ---------------------------------------------------------------------------------------
  // calculateMultiplier
  // ---------------------------------------------------------------------------------------

  /**
   * The multiplier of a count list under a table: for each symbol, the value of the key the
   * symbol repeated its count times forms, or 0.
   */
  function Multiplier(table: map<seq<Symbol>, nat>, counts: seq<(Symbol, nat)>): nat
    decreases |counts|
  {
    if counts == [] then 0
    else ComboValue(table, Repeat(counts[0].0, counts[0].1)) + Multiplier(table, counts[1..])
  }

  /** calculateMultiplier: accumulates the value of each symbol's repeated key in turn. */
  method CalculateMultiplier(counts: seq<(Symbol, nat)>) returns (total: nat)
    ensures total == Multiplier(SpecialCombos, counts)
  {
    total := 0;
    var k := 0;
    while k < |counts|
      invariant 0 <= k <= |counts|
      invariant total + Multiplier(SpecialCombos, counts[k..]) == Multiplier(SpecialCombos, counts)
    {
      assert counts[k..][0] == counts[k] && counts[k..][1..] == counts[k + 1..];
      var key := Repeat(counts[k].0, counts[k].1);
      if key in SpecialCombos {
        total := total + SpecialCombos[key];
      }
      k := k + 1;
    }
  }

  /** A key made of one symbol only. */
  predicate Uniform(key: seq<Symbol>)
  {
    forall i :: 0 <= i < |key| ==> key[i] == key[0]
  }

  /** The part of a table whose keys are uniform. */
  function UniformPart(table: map<seq<Symbol>, nat>): (t: map<seq<Symbol>, nat>)
    ensures forall key :: key in t <==> key in table && Uniform(key)
  {
    map key | key in table && Uniform(key) :: table[key]
  }

  /**
   * The mixed entries of the table (such as Gem Star Gem) never contribute: the multiplier of
   * every count list is the same with them removed.
   */
  lemma {:induction false} MixedCombosInert(table: map<seq<Symbol>, nat>, counts: seq<(Symbol, nat)>)
    ensures Multiplier(table, counts) == Multiplier(UniformPart(table), counts)
    decreases |counts|
  {
    if counts != [] {
      var key := Repeat(counts[0].0, counts[0].1);
      assert Uniform(key);
      MixedCombosInert(table, counts[1..]);
    }
  }

  /** Five entries of the table are mixed, so by MixedCombosInert a spin is never paid by them. */
  lemma {:induction false} MixedEntries()
    ensures forall key :: key in {[Gem, Star, Gem], [Gem, MoneyBag, Gem], [Crown, MoneyBag, Crown], [Crown, Gem, Crown], [Crown, Star, Crown]} ==>
      key in SpecialCombos && key !in UniformPart(SpecialCombos)
  {
    assert !Uniform([Gem, Star, Gem]) by { assert [Gem, Star, Gem][1] != [Gem, Star, Gem][0]; }
    assert !Uniform([Gem, MoneyBag, Gem]) by { assert [Gem, MoneyBag, Gem][1] != [Gem, MoneyBag, Gem][0]; }
    assert !Uniform([Crown, MoneyBag, Crown]) by { assert [Crown, MoneyBag, Crown][1] != [Crown, MoneyBag, Crown][0]; }
    assert !Uniform([Crown, Gem, Crown]) by { assert [Crown, Gem, Crown][1] != [Crown, Gem, Crown][0]; }
    assert !Uniform([Crown, Star, Crown]) by { assert [Crown, Star, Crown][1] != [Crown, Star, Crown][0]; }
  }

  /**
   * Two gems and a star pay nothing although the table lists Gem Star Gem; three crowns
   * pay 333.
   */
  lemma {:induction false} ExampleSpins()
    ensures Multiplier(SpecialCombos, [(Gem, 2), (Star, 1)]) == 0
    ensures Multiplier(SpecialCombos, [(Crown, 3)]) == 333
    ensures Multiplier(SpecialCombos, [(Clover, 1), (Cherry, 2)]) == 5
  {
    TwoGemsAndAStar();
    ThreeCrowns();
    CloverAndTwoCherries();
  }

  lemma {:induction false} TwoGemsAndAStar()
    ensures Multiplier(SpecialCombos, [(Gem, 2), (Star, 1)]) == 0
  {
    var counts: seq<(Symbol, nat)> := [(Gem, 2), (Star, 1)];
    assert counts[1..] == [(Star, 1)] && counts[1..][1..] == [];
    assert Repeat(Gem, 2) == [Gem, Gem] && [Gem, Gem] !in SpecialCombos;
    assert Repeat(Star, 1) == [Star] && [Star] !in SpecialCombos;
  }

  lemma {:induction false} ThreeCrowns()
    ensures Multiplier(SpecialCombos, [(Crown, 3)]) == 333
  {
    var counts: seq<(Symbol, nat)> := [(Crown, 3)];
    assert counts[1..] == [];
    assert Repeat(Crown, 3) == [Crown, Crown, Crown];
  }

  lemma {:induction false} CloverAndTwoCherries()
    ensures Multiplier(SpecialCombos, [(Clover, 1), (Cherry, 2)]) == 5
  {
    var counts: seq<(Symbol, nat)> := [(Clover, 1), (Cherry, 2)];
    assert counts[1..] == [(Cherry, 2)] && counts[1..][1..] == [];
    assert Repeat(Clover, 1) == [Clover];
    assert Repeat(Cherry, 2) == [Cherry, Cherry];
  }

  // ---------------------------------------------------------------------------------------
  // The command
  // ---------------------------------------------------------------------------------------

  /** The one-time warning prompt: not shown, confirmed, cancelled, or left unanswered. */
  datatype Prompt = NotShown | Understood | Cancel | Unanswered

  /**
   * The checks before the reels spin: the bet bounds, the prompt, and the precheck of the
   * user's gold.
   */
  function Precheck(l: Ledger, user: UserId, bet: int, prompt: Prompt): (r: Result<()>)
    ensures r.Ok? <==> MinBet <= bet <= MaxBet && (prompt.NotShown? || prompt.Understood?) && GetItemCount(l, user, Gold) >= bet
    ensures bet < MinBet ==> r == Err(TooSmall)
    ensures MinBet <= bet && bet > MaxBet ==> r == Err(TooLarge)
  {
    if bet < MinBet then Err(TooSmall)
    else if bet > MaxBet then Err(TooLarge)
    else if prompt.Cancel? then Err(GamblingCancelled)
    else if prompt.Unanswered? then Err(PromptExpired)
    else if GetItemCount(l, user, Gold) < bet then Err(NotEnoughGold)
    else Ok(())
  }

  /** The net gold change of a settled bet, `bet × multiplier − bet`: never worse than losing the bet. */
  function Net(bet: int, multiplier: nat): (d: int)
    requires bet >= 0
    ensures d >= -bet
    ensures d >= 0 <==> multiplier >= 1 || bet == 0
  {
    bet * multiplier - bet
  }

  /**
   * The payout transaction: re-read the gold, give up (changing nothing) if it no longer
   * covers the bet, otherwise change it by `winnings − bet`.
   */
  method Settle(w: World, user: UserId, bet: int, multiplier: nat) returns (r: Result<int>)
    requires w.Valid() && MinBet <= bet <= MaxBet
    modifies w`ledger
    ensures w.Valid()
    ensures var gold := GetItemCount(old(w.ledger), user, Gold);
      (gold < bet ==> r == Err(RaceCondition) && w.ledger == old(w.ledger)) &&
      (gold >= bet ==>
         r == Ok(bet * multiplier) &&
         w.ledger == old(w.ledger)[(user, Gold) := gold + Net(bet, multiplier)] &&
         GetItemCount(w.ledger, user, Gold) >= gold - bet)
  {
    var currentAmount := GetItemCount(w.ledger, user, Gold);
    if currentAmount < bet {
      return Err(RaceCondition);
    }
    var winnings := bet * multiplier;
    var _ := ChangeItemCount(w, user, Gold, (winnings - bet) as real);
    r := Ok(winnings);
  }

  /**
   * chatInputRun: the checks, then count the reels' symbols, compute the multiplier and
   * settle. Returns the winnings.
   */
  method PlaceBet(w: World, user: UserId, bet: int, prompt: Prompt, reels: seq<Symbol>) returns (r: Result<int>)
    requires w.Valid()
    modifies w`ledger
    ensures w.Valid()
    ensures var pre := Precheck(old(w.ledger), user, bet, prompt);
      var m := Multiplier(SpecialCombos, Counts(reels));
      (pre.Err? ==> r == Err(pre.message) && w.ledger == old(w.ledger)) &&
      (pre.Ok? ==> r == Ok(bet * m) && w.ledger == old(w.ledger)[(user, Gold) := GetItemCount(old(w.ledger), user, Gold) + Net(bet, m)])
  {
    var pre := Precheck(w.ledger, user, bet, prompt);
    if pre.Err? {
      return Err(pre.message);
    }
    var counts := CountCombos(reels);
    var multiplier := CalculateMultiplier(counts);
    r := Settle(w, user, bet, multiplier);
  }
}
