/**
 * The daily reward (src/commands/daily.ts): one transaction that checks the Daily cooldown,
 * credits a random amount of gold and consumes the cooldown.
 */
module Daily {
  import opened Types
  import opened Entities
  import opened Numeric
  import opened State
  import opened ItemService
  import opened Timeout

  const AlreadyClaimed: string := "You have already claimed your daily reward!"

  /** `50 + Math.floor(Math.random() * 200)`: the gold a claim pays. */
  function Reward(roll: Roll): (amount: int)
    ensures 50 <= amount <= 249
  {
    50 + Floor(roll * 200.0)
  }

  /** Every amount of the range is paid by some roll: the reward is exactly [50, 249]. */
  lemma {:induction false} RewardReachable(amount: int)
    requires 50 <= amount <= 249
    ensures var roll: Roll := (amount - 50) as real / 200.0; Reward(roll) == amount
  {
    var roll: Roll := (amount - 50) as real / 200.0;
    assert roll * 200.0 == (amount - 50) as real;
  }

  /**
   * chatInputRun: while the cooldown blocks, reply and change nothing; otherwise credit the
   * reward and record the claim as the last use of Daily.
   */
  method ClaimDaily(w: World, user: UserId, now: int, roll: Roll) returns (r: Result<int>)
    requires w.Valid()
    modifies w`ledger, w`timeouts
    ensures w.Valid()
    ensures var v := old(GetTimeout(w, user, Daily, now));
      if Expired(v, now) then r == Err(AlreadyClaimed) && w.ledger == old(w.ledger) && w.timeouts == old(w.timeouts)
      else
        r == Ok(Reward(roll)) &&
        w.ledger == old(w.ledger)[(user, Gold) := GetItemCount(old(w.ledger), user, Gold) + Reward(roll)] &&
        w.timeouts == old(w.timeouts)[(user, Daily) := now]
  {
    var timeout := GetTimeout(w, user, Daily, now);
    if Expired(timeout, now) {
      return Err(AlreadyClaimed);
    }
    var amount := 50 + Floor(roll * 200.0);
    var _ := ChangeItemCount(w, user, Gold, amount as real);
    var _ := Consume(w, timeout, now);
    r := Ok(amount);
  }

  /**
   * After a claim recorded at `now`, every later call on the same calendar day finds the
   * Daily cooldown blocking; no free claim or speedup can lift it.
   */
  lemma {:induction false} ClaimedTodayBlocks(w: World, user: UserId, now: int, later: int)
    requires (user, Daily) in w.timeouts && w.timeouts[(user, Daily)] == now
    requires later / DayMs == now / DayMs
    ensures Expired(GetTimeout(w, user, Daily, later), later)
  {
    DailyResetsAtMidnight(GetTimeout(w, user, Daily, later), later);
  }

  /** A claim recorded on an earlier day never blocks. */
  lemma {:induction false} NextDayOpen(w: World, user: UserId, now: int, later: int)
    requires (user, Daily) in w.timeouts && w.timeouts[(user, Daily)] == now
    requires later / DayMs > now / DayMs
    ensures !Expired(GetTimeout(w, user, Daily, later), later)
  {
    DailyResetsAtMidnight(GetTimeout(w, user, Daily, later), later);
  }
}
