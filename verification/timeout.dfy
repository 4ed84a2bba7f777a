/**
 * Command cooldowns (src/services/timeout.ts): the view getTimeout builds for one user and
 * command, the remaining-time getters over it, and consume.
 * The clock is the parameter `now` (ms); a calendar day is `now / DayMs`, so the bot's
 * configured time zone is taken to be UTC.
 */
module Timeout {
  import opened Types
  import opened Entities
  import opened Numeric
  import opened State
  import opened ItemService

  const DropCooldown: int := 30 * MinuteMs
  const ClaimCooldown: int := 10 * MinuteMs

  /** What getTimeout captured: the stored lastUsed, whether a speedup halves the cooldown, and whether a free claim is held. */
  datatype TimeoutView = TimeoutView(
    user: UserId,
    kind: TimeoutType,
    lastUsed: Option<int>,
    halved: bool,
    hasItem: bool)

  /** Start of the calendar day containing t (`setHours(0, 0, 0, 0)`). */
  function Midnight(t: int): (m: int)
    ensures m <= t < m + DayMs
  {
    (t / DayMs) * DayMs
  }

  /** The configured cooldown of Drop and Claim, after the speedup multiplier. */
  function Cooldown(kind: TimeoutType, halved: bool): int
    requires kind != Daily
  {
    var duration := if kind == Drop then DropCooldown else ClaimCooldown;
    if halved then duration / 2 else duration
  }

  /**
   * actualRemainingTime: 0 without a record; for Daily, 0 on a later day and otherwise the
   * time until the end of the last-use day; for Drop and Claim the cooldown minus the time
   * since last use (negative once it has passed).
   */
  function ActualRemainingTime(v: TimeoutView, now: int): (t: int)
    ensures v.lastUsed.None? ==> t == 0
  {
    if v.lastUsed.None? then 0
    else if v.kind == Daily then
      var lastMidnight := Midnight(v.lastUsed.value);
      if Midnight(now) > lastMidnight then 0 else DayMs - (now - lastMidnight)
    else Cooldown(v.kind, v.halved) - (now - v.lastUsed.value)
  }

  /** remainingTime: a held free claim hides the remaining time. */
  function RemainingTime(v: TimeoutView, now: int): (t: int)
    ensures v.hasItem ==> t == 0
    ensures !v.hasItem ==> t == ActualRemainingTime(v, now)
  {
    if v.hasItem then 0 else ActualRemainingTime(v, now)
  }

  /** expired: true while the command is still blocked (the source's name for "on cooldown"). */
  predicate Expired(v: TimeoutView, now: int)
  {
    RemainingTime(v, now) > 0
  }

  /** Whether the user's speedup effect of the given name is active at now. */
  predicate EffectActive(effects: map<(UserId, string), int>, user: UserId, effect: string, now: int)
  {
    (user, effect) in effects && effects[(user, effect)] > now
  }

  /**
   * getTimeout: the stored record, the Drop or Claim speedup, and for Claim the free-claim
   * count. Daily is never sped up and only Claim can be bypassed.
   */
  function GetTimeout(w: World, user: UserId, kind: TimeoutType, now: int): (v: TimeoutView)
    reads w`timeouts, w`effects, w`ledger
    ensures v.user == user && v.kind == kind
    ensures v.lastUsed.Some? <==> (user, kind) in w.timeouts
    ensures v.lastUsed.Some? ==> v.lastUsed.value == w.timeouts[(user, kind)]
    ensures v.halved ==> kind != Daily
    ensures v.hasItem <==> kind == Claim && GetItemCount(w.ledger, user, FreeClaim) > 0
  {
    var lastUsed := if (user, kind) in w.timeouts then Some(w.timeouts[(user, kind)]) else None;
    var halved := match kind
      case Drop => EffectActive(w.effects, user, DropSpeedup, now)
      case Claim => EffectActive(w.effects, user, ClaimSpeedup, now)
      case Daily => false;
    var hasItem := kind == Claim && GetItemCount(w.ledger, user, FreeClaim) > 0;
    TimeoutView(user, kind, lastUsed, halved, hasItem)
  }

  /** A user who never used a command is never blocked. */
  lemma {:induction false} NoRecordNeverBlocks(v: TimeoutView, now: int)
    requires v.lastUsed.None?
    ensures !Expired(v, now) && ActualRemainingTime(v, now) == 0
  {
  }

  /** Drop waits 30 minutes and Claim 10, each halved by its speedup, counted from last use. */
  lemma {:induction false} CooldownDurations(v: TimeoutView, now: int)
    requires v.lastUsed.Some? && v.kind != Daily
    ensures v.kind == Drop ==> ActualRemainingTime(v, now) == (if v.halved then 900000 else 1800000) - (now - v.lastUsed.value)
    ensures v.kind == Claim ==> ActualRemainingTime(v, now) == (if v.halved then 300000 else 600000) - (now - v.lastUsed.value)
  {
  }

  /** A held free claim unblocks Claim without changing the actual remaining time; Drop and Daily views never hold one. */
  lemma {:induction false} FreeClaimBypass(w: World, user: UserId, kind: TimeoutType, now: int)
    ensures var v := GetTimeout(w, user, kind, now);
      (v.hasItem ==> !Expired(v, now) && kind == Claim) &&
      (kind != Claim ==> RemainingTime(v, now) == ActualRemainingTime(v, now))
  {
  }

  /** Daily: used earlier the same day, it stays blocked until midnight; on any later day it is open. */
  lemma {:induction false} DailyResetsAtMidnight(v: TimeoutView, now: int)
    requires v.kind == Daily && v.lastUsed.Some? && !v.hasItem
    ensures now / DayMs > v.lastUsed.value / DayMs ==> !Expired(v, now)
    ensures now / DayMs == v.lastUsed.value / DayMs ==>
              Expired(v, now) && RemainingTime(v, now) == Midnight(now) + DayMs - now
  {
    var l := v.lastUsed.value;
    if now / DayMs > l / DayMs {
      assert Midnight(now) > Midnight(l) by {
        MidnightMonotone(l / DayMs, now / DayMs);
      }
    }
  }

  lemma {:induction false} MidnightMonotone(d1: int, d2: int)
    requires d1 < d2
    ensures d1 * DayMs < d2 * DayMs
  {
  }

  /** Right after a use, the same command is blocked until its cooldown has passed. */
  lemma {:induction false} BlockedAfterUse(user: UserId, kind: TimeoutType, halved: bool, used: int, now: int)
    requires kind != Daily && used <= now < used + Cooldown(kind, halved)
    ensures Expired(TimeoutView(user, kind, Some(used), halved, false), now)
  {
  }

  /** The command_timeout table and the ledger: what consume may change. */
  datatype Gate = Gate(timeouts: map<(UserId, TimeoutType), int>, ledger: Ledger)

  /** Whether consume spends a free claim instead of recording the use. */
  predicate Bypasses(v: TimeoutView, now: int)
  {
    v.hasItem && ActualRemainingTime(v, now) > 0
  }

  /**
   * What consume does to the tables: refused while blocked; with a free claim covering a
   * running cooldown it spends one free claim; otherwise it records now as the last use.
   */
  function ConsumeResult(v: TimeoutView, now: int, g: Gate): (r: Result<Gate>)
    ensures Expired(v, now) ==> r == Err("Timeout expired")
    ensures r.Ok? && Bypasses(v, now) ==>
      r.value.timeouts == g.timeouts && GetItemCount(r.value.ledger, v.user, FreeClaim) == GetItemCount(g.ledger, v.user, FreeClaim) - 1
    ensures r.Ok? && !Bypasses(v, now) ==>
      r.value.ledger == g.ledger && (v.user, v.kind) in r.value.timeouts && r.value.timeouts[(v.user, v.kind)] == now
  {
    if Expired(v, now) then Err("Timeout expired")
    else if Bypasses(v, now) then
      var count := GetItemCount(g.ledger, v.user, FreeClaim);
      if count <= 0 then Err("Insufficient items")
      else Ok(Gate(g.timeouts, g.ledger[(v.user, FreeClaim) := count - 1]))
    else Ok(Gate(g.timeouts[(v.user, v.kind) := now], g.ledger))
  }

  /**
   * A handler that checked `expired` on a view it just read can always consume: the free
   * claim it saw is still there, and the result keeps every balance non-negative.
   */
  lemma {:induction false} ConsumeAfterCheck(w: World, user: UserId, kind: TimeoutType, now: int)
    requires LedgerValid(w.ledger)
    requires !Expired(GetTimeout(w, user, kind, now), now)
    ensures ConsumeResult(GetTimeout(w, user, kind, now), now, Gate(w.timeouts, w.ledger)).Ok?
    ensures LedgerValid(ConsumeResult(GetTimeout(w, user, kind, now), now, Gate(w.timeouts, w.ledger)).value.ledger)
  {
    var v := GetTimeout(w, user, kind, now);
    if Bypasses(v, now) {
      ChangeEffect(w.ledger, user, FreeClaim, -1);
    }
  }

  /** Once a Drop or Claim use is recorded without a free claim, the command is blocked for its full cooldown. */
  lemma {:induction false} ConsumeThenBlocked(v: TimeoutView, now: int, g: Gate, later: int)
    requires v.kind != Daily && !Bypasses(v, now) && ConsumeResult(v, now, g).Ok?
    requires now <= later < now + Cooldown(v.kind, v.halved)
    ensures var t := ConsumeResult(v, now, g).value.timeouts;
      Expired(TimeoutView(v.user, v.kind, Some(t[(v.user, v.kind)]), v.halved, false), later)
  {
  }

  /** consume, as a transaction step on the world. */
  method Consume(w: World, v: TimeoutView, now: int) returns (r: Result<()>)
    requires w.Valid()
    modifies w`ledger, w`timeouts
    ensures w.Valid()
    ensures var c := ConsumeResult(v, now, old(Gate(w.timeouts, w.ledger)));
      if c.Ok? then r.Ok? && w.timeouts == c.value.timeouts && w.ledger == c.value.ledger
      else r == Err(c.message) && unchanged(w)
  {
    if Expired(v, now) {
      return Err("Timeout expired");
    }
    if v.hasItem && ActualRemainingTime(v, now) > 0 {
      var item := GetItemCount(w.ledger, v.user, FreeClaim);
      if item <= 0 {
        return Err("Insufficient items");
      }
      var _ := ChangeItemCount(w, v.user, FreeClaim, -1.0);
      r := Ok(());
    } else {
      w.timeouts := w.timeouts[(v.user, v.kind) := now];
      r := Ok(());
    }
  }
}
