/**
 * Card jobs (src/commands/jobs.ts): binding cards to the four slots, putting idle slots to
 * work, resolving finished jobs into gold and motivation changes, and the periodic motivation
 * regeneration. Job durations and every Math.random() outcome are parameters.
 */
module Jobs {
  import opened Types
  import opened Entities
  import opened Cards
  import opened JobAssignments
  import opened State
  import opened ItemService
  import opened CardService
  import opened Numeric

  /** The slots a user can fill, in order. */
  const Slots: seq<Slot> := [A, B, C, D]

  /** The option value of a slot. */
  function SlotName(s: Slot): string
  {
    match s
    case A => "a"
    case B => "b"
    case C => "c"
    case D => "d"
  }

  /** The slot an option value names, if any. */
  function ParseSlot(name: string): (s: Option<Slot>)
    ensures s.Some? ==> SlotName(s.value) == name
  {
    if name == "a" then Some(A)
    else if name == "b" then Some(B)
    else if name == "c" then Some(C)
    else if name == "d" then Some(D)
    else None
  }

  /** There are exactly four slots, a to d, each named once and parsed back from its name. */
  lemma {:induction false} SlotsExactly()
    ensures |Slots| == 4 && forall s: Slot :: s in Slots
    ensures forall i, j :: 0 <= i < j < |Slots| ==> Slots[i] != Slots[j]
    ensures forall s: Slot :: ParseSlot(SlotName(s)) == Some(s)
    ensures forall name :: ParseSlot(name).Some? <==> name in {"a", "b", "c", "d"}
  {
    forall s: Slot
      ensures s in Slots
    {
      match s
      case A => assert Slots[0] == A;
      case B => assert Slots[1] == B;
      case C => assert Slots[2] == C;
      case D => assert Slots[3] == D;
    }
  }

  // ---------------------------------------------------------------------------------------
  // assign
  // ---------------------------------------------------------------------------------------

  const AlreadyAssigned := "This card is already assigned to a slot"
  const SlotActive := "This slot is currently active, wait until it has finished to reassign a new card."

  /**
   * The checks of assign: the user owns the card (getOwnedCard), no slot of anyone holds it,
   * and the target slot is not running a job. Ok carries the card's code.
   */
  function CheckAssign(cards: map<CardId, Card>, jobs: map<(UserId, Slot), JobAssignment>,
                       user: UserId, slot: Slot, cardId: string): (r: Result<CardId>)
    ensures r.Ok? ==> GetOwnedCard(cards, user, cardId) == Ok(r.value)
    ensures GetOwnedCard(cards, user, cardId).Err? ==> r == Err(GetOwnedCard(cards, user, cardId).message)
  {
    var owned := GetOwnedCard(cards, user, cardId);
    if owned.Err? then Err(owned.message)
    else if GetCardUsage(jobs, owned.value) == JobSlot then Err(AlreadyAssigned)
    else if (user, slot) in jobs && jobs[(user, slot)].IsActive() then Err(SlotActive)
    else Ok(owned.value)
  }

  /** Assign succeeds exactly for an owned card no slot holds, into a slot that is not running. */
  lemma {:induction false} CheckAssignCases(cards: map<CardId, Card>, jobs: map<(UserId, Slot), JobAssignment>,
                         user: UserId, slot: Slot, cardId: string)
    ensures var r := CheckAssign(cards, jobs, user, slot, cardId);
      var owned := GetOwnedCard(cards, user, cardId);
      (r.Ok? <==> owned.Ok? &&
                  (forall k :: k in jobs ==> jobs[k].card != Some(owned.value)) &&
                  !((user, slot) in jobs && jobs[(user, slot)].IsActive())) &&
      (r == Err(AlreadyAssigned) <==> owned.Ok? && exists k :: k in jobs && jobs[k].card == Some(owned.value))
  {
    var owned := GetOwnedCard(cards, user, cardId);
    if owned.Ok? {
      GetCardUsageCases(jobs, owned.value);
    }
  }

  /** The row the upsert leaves: the slot's row with the new card, or a fresh idle row. */
  function Bound(jobs: map<(UserId, Slot), JobAssignment>, user: UserId, slot: Slot, id: CardId): (j: JobAssignment)
    ensures j.card == Some(id)
    ensures (user, slot) in jobs && !jobs[(user, slot)].IsActive() ==> !j.IsActive()
  {
    if (user, slot) in jobs then jobs[(user, slot)].(card := Some(id))
    else JobAssignment(Some(id), None, None, "", "")
  }

  /**
   * After a successful assign the card is in use, so assigning the same card again, to any
   * slot, is refused; and no card sits in two slots.
   */
  lemma {:induction false} AssignedCardInUse(cards: map<CardId, Card>, jobs: map<(UserId, Slot), JobAssignment>,
                          user: UserId, slot: Slot, cardId: string, slot': Slot)
    requires JobsValid(jobs) && CheckAssign(cards, jobs, user, slot, cardId).Ok?
    ensures var id := CheckAssign(cards, jobs, user, slot, cardId).value;
      var jobs' := jobs[(user, slot) := Bound(jobs, user, slot, id)];
      JobsValid(jobs') && GetCardUsage(jobs', id) == JobSlot &&
      CheckAssign(cards, jobs', user, slot', cardId) == Err(AlreadyAssigned)
  {
    var id := CheckAssign(cards, jobs, user, slot, cardId).value;
    var jobs' := jobs[(user, slot) := Bound(jobs, user, slot, id)];
    CheckAssignCases(cards, jobs, user, slot, cardId);
    GetCardUsageCases(jobs', id);
    CheckAssignCases(cards, jobs', user, slot', cardId);
  }

  /** chatInputAssign */
  method Assign(w: World, user: UserId, slot: Slot, cardId: string) returns (r: Result<CardId>)
    requires w.Valid()
    modifies w`jobs
    ensures w.Valid()
    ensures r == CheckAssign(w.cards, old(w.jobs), user, slot, cardId)
    ensures r.Err? ==> w.jobs == old(w.jobs)
    ensures r.Ok? ==> w.jobs == old(w.jobs)[(user, slot) := Bound(old(w.jobs), user, slot, r.value)]
  {
    r := CheckAssign(w.cards, w.jobs, user, slot, cardId);
    if r.Ok? {
      AssignedCardInUse(w.cards, w.jobs, user, slot, cardId, slot);
      w.jobs := w.jobs[(user, slot) := Bound(w.jobs, user, slot, r.value)];
    }
  }

  // ---------------------------------------------------------------------------------------
  // work
  // ---------------------------------------------------------------------------------------

  datatype WorkOutcome = NoCardsAssigned | AllBusy | PutToWork(slots: seq<Slot>)

  /** An idle assignment started at now, running for duration, reporting to guild and channel. */
  function StartJob(j: JobAssignment, now: int, duration: int, guild: string, channel: string): (j': JobAssignment)
    ensures j'.IsActive() && j'.startedAt == Some(now) && j'.activeUntil == Some(now + duration)
    ensures j'.card == j.card
  {
    j.(startedAt := Some(now), activeUntil := Some(now + duration), guildId := guild, channelId := channel)
  }

  /** The assignments after work: every idle slot of the user started, everything else as it was. */
  function Worked(jobs: map<(UserId, Slot), JobAssignment>, user: UserId, now: int, durations: Slot -> int,
                  guild: string, channel: string): (jobs': map<(UserId, Slot), JobAssignment>)
  {
    map k | k in jobs :: if k.0 == user && !jobs[k].IsActive() then StartJob(jobs[k], now, durations(k.1), guild, channel) else jobs[k]
  }

  /**
   * What work leaves: the same rows, every one of the user's rows running, the idle ones started
   * now, active ones and other users' rows untouched, no card moved; working again finds all busy.
   */
  lemma {:induction false} WorkedEffect(jobs: map<(UserId, Slot), JobAssignment>, user: UserId, now: int, durations: Slot -> int,
                     guild: string, channel: string)
    ensures var jobs' := Worked(jobs, user, now, durations, guild, channel);
      jobs'.Keys == jobs.Keys &&
      (forall k :: k in jobs && k.0 == user ==> jobs'[k].IsActive() && jobs'[k].card == jobs[k].card) &&
      (forall k :: k in jobs && k.0 == user && !jobs[k].IsActive() ==>
        jobs'[k].startedAt == Some(now) && jobs'[k].activeUntil == Some(now + durations(k.1))) &&
      (forall k :: k in jobs && (k.0 != user || jobs[k].IsActive()) ==> jobs'[k] == jobs[k]) &&
      (JobsValid(jobs) ==> JobsValid(jobs')) &&
      Worked(jobs', user, now, durations, guild, channel) == jobs'
  {
  }

  /**
   * The two checks of work in one pass over the slots: whether the user has any row, and the
   * slots of the rows that are not running, in slot order.
   */
  method ScanSlots(w: World, user: UserId) returns (any: bool, idle: seq<Slot>)
    ensures any <==> exists s: Slot :: (user, s) in w.jobs
    ensures forall s: Slot :: s in idle <==> (user, s) in w.jobs && !w.jobs[(user, s)].IsActive()
  {
    any := false;
    idle := [];
    var i := 0;
    while i < |Slots|
      invariant 0 <= i <= |Slots|
      invariant any <==> exists s :: s in Slots[..i] && (user, s) in w.jobs
      invariant forall s :: s in idle <==> s in Slots[..i] && (user, s) in w.jobs && !w.jobs[(user, s)].IsActive()
    {
      var s := Slots[i];
      assert Slots[..i + 1] == Slots[..i] + [s];
      if (user, s) in w.jobs {
        any := true;
        if !w.jobs[(user, s)].IsActive() {
          idle := idle + [s];
        }
      }
      i := i + 1;
    }
    assert Slots[..i] == Slots;
    SlotsExactly();
  }

  /** The rows with the user's rows in the given slots started. */
  ghost function StartedIn(jobs: map<(UserId, Slot), JobAssignment>, user: UserId, slots: seq<Slot>, now: int,
                           durations: Slot -> int, guild: string, channel: string): map<(UserId, Slot), JobAssignment>
  {
    map k | k in jobs :: if k.0 == user && k.1 in slots then StartJob(jobs[k], now, durations(k.1), guild, channel) else jobs[k]
  }

  /** Starting one more slot is one more row update. */
  lemma {:induction false} StartedInStep(jobs: map<(UserId, Slot), JobAssignment>, user: UserId, slots: seq<Slot>, s: Slot, now: int,
                      durations: Slot -> int, guild: string, channel: string)
    requires (user, s) in jobs
    ensures var before := StartedIn(jobs, user, slots, now, durations, guild, channel);
      StartedIn(jobs, user, slots + [s], now, durations, guild, channel) ==
      before[(user, s) := StartJob(before[(user, s)], now, durations(s), guild, channel)]
  {
  }

  /** The update loop of work: start the user's rows in the given slots, one by one. */
  method StartSlots(w: World, user: UserId, idle: seq<Slot>, now: int, durations: Slot -> int, guild: string, channel: string)
    requires w.Valid() && forall s :: s in idle ==> (user, s) in w.jobs
    modifies w`jobs
    ensures w.Valid()
    ensures w.jobs == StartedIn(old(w.jobs), user, idle, now, durations, guild, channel)
  {
    ghost var jobs0 := w.jobs;
    var j := 0;
    while j < |idle|
      invariant 0 <= j <= |idle|
      invariant w.jobs == StartedIn(jobs0, user, idle[..j], now, durations, guild, channel)
      invariant w.Valid()
    {
      var s := idle[j];
      assert idle[..j + 1] == idle[..j] + [s];
      assert s in idle;
      StartedInStep(jobs0, user, idle[..j], s, now, durations, guild, channel);
      w.SaveJob((user, s), StartJob(w.jobs[(user, s)], now, durations(s), guild, channel));
      j := j + 1;
    }
    assert idle[..j] == idle;
  }

  /**
   * chatInputWork: no change when the user has no rows or all are running; otherwise every idle
   * row is started and the started slots are reported. The duration of each slot's job (one
   * hour shortened by effort and a random jitter) is the parameter durations.
   */
  method Work(w: World, user: UserId, now: int, durations: Slot -> int, guild: string, channel: string)
    returns (o: WorkOutcome)
    requires w.Valid()
    modifies w`jobs
    ensures w.Valid()
    ensures (forall s: Slot :: (user, s) !in old(w.jobs)) <==> o == NoCardsAssigned
    ensures o == AllBusy <==>
      (exists s: Slot :: (user, s) in old(w.jobs)) &&
      forall s: Slot :: (user, s) in old(w.jobs) ==> old(w.jobs)[(user, s)].IsActive()
    ensures !o.PutToWork? ==> w.jobs == old(w.jobs)
    ensures o.PutToWork? ==>
      w.jobs == Worked(old(w.jobs), user, now, durations, guild, channel) && |o.slots| > 0 &&
      forall s: Slot :: s in o.slots <==> (user, s) in old(w.jobs) && !old(w.jobs)[(user, s)].IsActive()
  {
    var any, idle := ScanSlots(w, user);
    if !any {
      return NoCardsAssigned;
    }
    if idle == [] {
      return AllBusy;
    }
    assert idle[0] in idle;
    ghost var jobs0 := w.jobs;
    StartSlots(w, user, idle, now, durations, guild, channel);
    assert StartedIn(jobs0, user, idle, now, durations, guild, channel) == Worked(jobs0, user, now, durations, guild, channel);
    o := PutToWork(idle);
  }

  // ---------------------------------------------------------------------------------------
  // updateJobs
  // ---------------------------------------------------------------------------------------

  const BoostChance: real := 0.7
  const MindblockChance: real := 0.2
  const DemotivateChance: real := 0.5
  const MindblockMs: int := 12 * HourMs

  /** The Math.random() draws of one job's resolution, in the order the source makes them. */
  datatype JobRolls = JobRolls(success: Roll, boost: Roll, mindblock: Roll, demotivate: Roll)

  /** A job is finished once its activeUntil is not after now. */
  predicate Finished(j: JobAssignment, now: int)
  {
    j.activeUntil.Some? && j.activeUntil.value <= now
  }

  /** One job's result: whether it succeeded, the gold credited, and the card as saved (None: not saved). */
  datatype Resolution = Resolution(success: bool, gold: int, saved: Option<Card>)

  /**
   * Resolving one finished job for card c: success when the roll is at most the chance, paying
   * max(effort, 0) gold and, with probability 0.7, one motivation up to 10. A failure mindblocks
   * the card for 12 hours and caps motivation at 4 (at least 1) with probability 0.2, or else
   * costs one motivation (not below 1) with probability 0.5.
   */
  function Resolve(c: Card, chance: real, r: JobRolls, now: int): (res: Resolution)
    ensures res.gold >= 0 && (!res.success ==> res.gold == 0)
  {
    if r.success <= chance then
      var gold := if c.Effort(now) > 0 then c.Effort(now) else 0;
      if r.boost < BoostChance then
        Resolution(true, gold, Some(c.(jobMotivation := if c.jobMotivation + 1 < 10 then c.jobMotivation + 1 else 10)))
      else Resolution(true, gold, None)
    else if r.mindblock < MindblockChance then
      var capped := if c.jobMotivation - 2 < 4 then c.jobMotivation - 2 else 4;
      Resolution(false, 0, Some(c.(jobMindblockedUntil := Some(now + MindblockMs),
                                   jobMotivation := if capped > 1 then capped else 1)))
    else if r.demotivate < DemotivateChance then
      Resolution(false, 0, Some(c.(jobMotivation := if c.jobMotivation - 1 > 1 then c.jobMotivation - 1 else 1)))
    else Resolution(false, 0, None)
  }

  /**
   * What resolving changes on the card: only motivation and the mindblock date; motivation
   * stays in [1, 10], never falls on success and never rises on failure; a new mindblock lasts
   * exactly the next 12 hours and leaves motivation at most 4.
   */
  lemma {:induction false} ResolveEffect(c: Card, chance: real, r: JobRolls, now: int)
    requires 1 <= c.jobMotivation <= 10
    ensures var res := Resolve(c, chance, r, now);
      res.success == (r.success <= chance) &&
      (res.success ==> res.gold == (if c.Effort(now) > 0 then c.Effort(now) else 0)) &&
      (res.saved.Some? ==>
        var c' := res.saved.value;
        c'.(jobMotivation := c.jobMotivation, jobMindblockedUntil := c.jobMindblockedUntil) == c &&
        1 <= c'.jobMotivation <= 10 &&
        (res.success ==> c.jobMotivation <= c'.jobMotivation <= c.jobMotivation + 1 &&
                         c'.jobMindblockedUntil == c.jobMindblockedUntil) &&
        (!res.success ==> c'.jobMotivation <= c.jobMotivation) &&
        (c'.jobMindblockedUntil != c.jobMindblockedUntil ==>
          c'.jobMotivation <= 4 && forall t :: t >= now ==> (t < now + MindblockMs <==> JobMindblocked(c'.jobMindblockedUntil, t))))
  {
  }

  /** The two tables the resolution writes. */
  datatype JobTables = JobTables(cards: map<CardId, Card>, ledger: Ledger)

  /** The card as the update hook stores it: burn value recomputed from its mapper and condition. */
  function Hooked(c: Card, mappers: map<MapperId, Mapper>, conditions: map<Tier, ConditionRow>): (c': Card)
    requires c.mapper in mappers && c.condition in conditions
    ensures c'.(burnValue := c.burnValue) == c
  {
    CalculateBurnValue(c, mappers[c.mapper].rarity, conditions[c.condition].multiplier)
  }

  /**
   * Resolving the job in row key, reading its card as loaded (cards0): a row with no card
   * throws; otherwise gold goes to the row's user and a saved card passes the update hook.
   */
  function ResolveJob(t: JobTables, cards0: map<CardId, Card>, jobs: map<(UserId, Slot), JobAssignment>,
                      mappers: map<MapperId, Mapper>, conditions: map<Tier, ConditionRow>,
                      key: (UserId, Slot), now: int, rolls: ((UserId, Slot)) -> JobRolls, effortRoot: int -> real): (r: Result<JobTables>)
    requires key in jobs && CardsValid(cards0, mappers) && forall t: Tier :: t in conditions
  {
    var id := jobs[key].card;
    if id.None? || id.value !in cards0 then Err("Cannot read properties of null")
    else
      var c := cards0[id.value];
      var res := Resolve(c, SuccessChance(c.jobMotivation, effortRoot(c.jobBaseEffort), c.Mindblocked(now)), rolls(key), now);
      var ledger := if res.success then t.ledger[(key.0, Gold) := GetItemCount(t.ledger, key.0, Gold) + res.gold] else t.ledger;
      var cards := if res.saved.Some? then t.cards[id.value := Hooked(res.saved.value, mappers, conditions)] else t.cards;
      Ok(JobTables(cards, ledger))
  }

  /** The resolution loop over the finished rows, in the order the query returns them. */
  function ResolveAll(t: JobTables, cards0: map<CardId, Card>, jobs: map<(UserId, Slot), JobAssignment>,
                      mappers: map<MapperId, Mapper>, conditions: map<Tier, ConditionRow>,
                      order: seq<(UserId, Slot)>, now: int, rolls: ((UserId, Slot)) -> JobRolls, effortRoot: int -> real): (r: Result<JobTables>)
    requires forall k :: k in order ==> k in jobs
    requires CardsValid(cards0, mappers) && forall t: Tier :: t in conditions
    decreases |order|
  {
    if order == [] then Ok(t)
    else
      var first := ResolveJob(t, cards0, jobs, mappers, conditions, order[0], now, rolls, effortRoot);
      if first.Err? then first
      else ResolveAll(first.value, cards0, jobs, mappers, conditions, order[1..], now, rolls, effortRoot)
  }

  /**
   * Resolution only pays: no balance falls, only gold moves, and only for users whose rows are
   * resolved; cards keep motivation in [1, 10] and cards of no resolved row are untouched.
   */
  lemma {:induction false} ResolveAllEffect(t: JobTables, cards0: map<CardId, Card>, jobs: map<(UserId, Slot), JobAssignment>,
                                            mappers: map<MapperId, Mapper>, conditions: map<Tier, ConditionRow>,
                                            order: seq<(UserId, Slot)>, now: int, rolls: ((UserId, Slot)) -> JobRolls, effortRoot: int -> real)
    requires forall k :: k in order ==> k in jobs
    requires CardsValid(cards0, mappers) && forall t: Tier :: t in conditions
    requires LedgerValid(t.ledger) && CardsValid(t.cards, mappers) && cards0.Keys <= t.cards.Keys
    requires ResolveAll(t, cards0, jobs, mappers, conditions, order, now, rolls, effortRoot).Ok?
    ensures var t' := ResolveAll(t, cards0, jobs, mappers, conditions, order, now, rolls, effortRoot).value;
      LedgerValid(t'.ledger) && CardsValid(t'.cards, mappers) && t'.cards.Keys == t.cards.Keys &&
      (forall u, i :: GetItemCount(t'.ledger, u, i) >= GetItemCount(t.ledger, u, i)) &&
      (forall u, i :: (i != Gold || forall k :: k in order ==> k.0 != u) ==>
        GetItemCount(t'.ledger, u, i) == GetItemCount(t.ledger, u, i)) &&
      (forall id :: id in t.cards && (forall k :: k in order ==> jobs[k].card != Some(id)) ==> t'.cards[id] == t.cards[id])
    decreases |order|
  {
    if order != [] {
      var key := order[0];
      assert key in order;
      var first := ResolveJob(t, cards0, jobs, mappers, conditions, key, now, rolls, effortRoot);
      ResolveJobEffect(t, cards0, jobs, mappers, conditions, key, now, rolls, effortRoot);
      assert forall k :: k in order[1..] ==> k in order;
      ResolveAllEffect(first.value, cards0, jobs, mappers, conditions, order[1..], now, rolls, effortRoot);
    }
  }

  /** One resolved row only pays its own user gold and only touches its own card, within bounds. */
  lemma {:induction false} ResolveJobEffect(t: JobTables, cards0: map<CardId, Card>, jobs: map<(UserId, Slot), JobAssignment>,
                                            mappers: map<MapperId, Mapper>, conditions: map<Tier, ConditionRow>,
                                            key: (UserId, Slot), now: int, rolls: ((UserId, Slot)) -> JobRolls, effortRoot: int -> real)
    requires key in jobs && CardsValid(cards0, mappers) && forall t: Tier :: t in conditions
    requires LedgerValid(t.ledger) && CardsValid(t.cards, mappers) && cards0.Keys <= t.cards.Keys
    requires ResolveJob(t, cards0, jobs, mappers, conditions, key, now, rolls, effortRoot).Ok?
    ensures var t' := ResolveJob(t, cards0, jobs, mappers, conditions, key, now, rolls, effortRoot).value;
      LedgerValid(t'.ledger) && CardsValid(t'.cards, mappers) && t'.cards.Keys == t.cards.Keys &&
      (forall u, i :: GetItemCount(t'.ledger, u, i) >= GetItemCount(t.ledger, u, i)) &&
      (forall u, i :: (i != Gold || key.0 != u) ==> GetItemCount(t'.ledger, u, i) == GetItemCount(t.ledger, u, i)) &&
      (forall id :: id in t.cards && jobs[key].card != Some(id) ==> t'.cards[id] == t.cards[id])
  {
    var c := cards0[jobs[key].card.value];
    ResolveEffect(c, SuccessChance(c.jobMotivation, effortRoot(c.jobBaseEffort), c.Mindblocked(now)), rolls(key), now);
  }

  /** The rows after resolution: every finished row idle again, everything else unchanged. */
  function Cleared(jobs: map<(UserId, Slot), JobAssignment>, now: int): (jobs': map<(UserId, Slot), JobAssignment>)
  {
    map k | k in jobs :: if Finished(jobs[k], now) then jobs[k].(activeUntil := None, startedAt := None) else jobs[k]
  }

  /** After clearing no row is finished, the finished rows are idle with their cards kept, and no other row moves. */
  lemma {:induction false} ClearedEffect(jobs: map<(UserId, Slot), JobAssignment>, now: int)
    ensures var jobs' := Cleared(jobs, now);
      jobs'.Keys == jobs.Keys &&
      (forall k :: k in jobs' ==> !Finished(jobs'[k], now) && jobs'[k].card == jobs[k].card) &&
      (forall k :: k in jobs && Finished(jobs[k], now) ==> !jobs'[k].IsActive() && jobs'[k].startedAt.None?) &&
      (forall k :: k in jobs && !Finished(jobs[k], now) ==> jobs'[k] == jobs[k]) &&
      (JobsValid(jobs) ==> JobsValid(jobs'))
  {
  }

  /**
   * One pass of the resolution loop on the world: resolve the job in row key against the cards
   * as loaded, crediting gold through changeItemCount and saving a changed card.
   */
  method ResolveOne(w: World, cards0: map<CardId, Card>, key: (UserId, Slot), now: int,
                    rolls: ((UserId, Slot)) -> JobRolls, effortRoot: int -> real) returns (r: Result<()>)
    requires w.Valid() && key in w.jobs && CardsValid(cards0, w.mappers)
    modifies w`cards, w`ledger
    ensures w.Valid()
    ensures var t := ResolveJob(JobTables(old(w.cards), old(w.ledger)), cards0, w.jobs, w.mappers, w.conditions, key, now, rolls, effortRoot);
      if t.Ok? then r == Ok(()) && w.cards == t.value.cards && w.ledger == t.value.ledger
      else r == Err(t.message) && w.cards == old(w.cards) && w.ledger == old(w.ledger)
  {
    var id := w.jobs[key].card;
    if id.None? || id.value !in cards0 {
      return Err("Cannot read properties of null");
    }
    var c := cards0[id.value];
    var chance := SuccessChance(c.jobMotivation, effortRoot(c.jobBaseEffort), c.Mindblocked(now));
    var res := Resolve(c, chance, rolls(key), now);
    ResolveEffect(c, chance, rolls(key), now);
    if res.success {
      assert Floor(res.gold as real) == res.gold;
      var _ := ChangeItemCount(w, key.0, Gold, res.gold as real);
    }
    if res.saved.Some? {
      w.SaveCard(id.value, Hooked(res.saved.value, w.mappers, w.conditions));
    }
    r := Ok(());
  }

  /** The resolution loop of updateJobs over the rows in order, against the cards as loaded. */
  method ResolveJobs(w: World, order: seq<(UserId, Slot)>, now: int, rolls: ((UserId, Slot)) -> JobRolls, effortRoot: int -> real)
    returns (r: Result<()>)
    requires w.Valid() && forall k :: k in order ==> k in w.jobs
    modifies w`cards, w`ledger
    ensures w.Valid()
    ensures var t := ResolveAll(JobTables(old(w.cards), old(w.ledger)), old(w.cards), w.jobs, w.mappers, w.conditions,
                                order, now, rolls, effortRoot);
      if t.Ok? then r == Ok(()) && w.cards == t.value.cards && w.ledger == t.value.ledger
      else r == Err(t.message) && w.cards == old(w.cards) && w.ledger == old(w.ledger)
  {
    var cards0, ledger0 := w.cards, w.ledger;
    var j := 0;
    while j < |order|
      invariant 0 <= j <= |order|
      invariant w.Valid()
      invariant ResolveAll(JobTables(cards0, ledger0), cards0, w.jobs, w.mappers, w.conditions, order, now, rolls, effortRoot) ==
                ResolveAll(JobTables(w.cards, w.ledger), cards0, w.jobs, w.mappers, w.conditions, order[j..], now, rolls, effortRoot)
    {
      assert order[j..][0] == order[j] && order[j..][1..] == order[j + 1..];
      assert order[j] in order;
      var step := ResolveOne(w, cards0, order[j], now, rolls, effortRoot);
      if step.Err? {
        w.cards, w.ledger := cards0, ledger0;
        return step;
      }
      j := j + 1;
    }
    assert order[j..] == [];
    r := Ok(());
  }

  /** The rows with the given keys cleared. */
  ghost function ClearedIn(jobs: map<(UserId, Slot), JobAssignment>, keys: seq<(UserId, Slot)>): map<(UserId, Slot), JobAssignment>
  {
    map k | k in jobs :: if k in keys then jobs[k].(activeUntil := None, startedAt := None) else jobs[k]
  }

  /** Clearing one more key is one more row update. */
  lemma {:induction false} ClearedInStep(jobs: map<(UserId, Slot), JobAssignment>, keys: seq<(UserId, Slot)>, key: (UserId, Slot))
    requires key in jobs
    ensures var before := ClearedIn(jobs, keys);
      ClearedIn(jobs, keys + [key]) == before[key := before[key].(activeUntil := None, startedAt := None)]
  {
  }

  /** The clearing loop of updateJobs: set activeUntil and startedAt to null on every finished row. */
  method ClearJobs(w: World, order: seq<(UserId, Slot)>, now: int)
    requires w.Valid()
    requires forall k :: k in order <==> k in w.jobs && Finished(w.jobs[k], now)
    modifies w`jobs
    ensures w.Valid()
    ensures w.jobs == Cleared(old(w.jobs), now)
  {
    ghost var jobs0 := w.jobs;
    var j := 0;
    while j < |order|
      invariant 0 <= j <= |order|
      invariant w.jobs == ClearedIn(jobs0, order[..j])
      invariant w.Valid()
    {
      assert order[..j + 1] == order[..j] + [order[j]];
      assert order[j] in order;
      ClearedInStep(jobs0, order[..j], order[j]);
      w.SaveJob(order[j], w.jobs[order[j]].(activeUntil := None, startedAt := None));
      j := j + 1;
    }
    assert order[..j] == order;
    assert ClearedIn(jobs0, order) == Cleared(jobs0, now);
  }

  /**
   * updateJobs: resolve every finished row (order lists them as the query returns them, each
   * once), then clear activeUntil and startedAt on all of them. A row without a card throws,
   * which rolls the whole transaction back.
   */
  method UpdateJobs(w: World, now: int, order: seq<(UserId, Slot)>, rolls: ((UserId, Slot)) -> JobRolls, effortRoot: int -> real)
    returns (r: Result<()>)
    requires w.Valid()
    requires forall k :: k in order <==> k in w.jobs && Finished(w.jobs[k], now)
    requires forall i, j :: 0 <= i < j < |order| ==> order[i] != order[j]
    modifies w`cards, w`ledger, w`jobs
    ensures w.Valid()
    ensures var t := ResolveAll(JobTables(old(w.cards), old(w.ledger)), old(w.cards), old(w.jobs), w.mappers, w.conditions,
                                order, now, rolls, effortRoot);
      if t.Ok? then r == Ok(()) && w.cards == t.value.cards && w.ledger == t.value.ledger && w.jobs == Cleared(old(w.jobs), now)
      else r == Err(t.message) && w.cards == old(w.cards) && w.ledger == old(w.ledger) && w.jobs == old(w.jobs)
  {
    r := ResolveJobs(w, order, now, rolls, effortRoot);
    if r.Ok? {
      ClearJobs(w, order, now);
    }
  }

  // ---------------------------------------------------------------------------------------
  // updateMotivation
  // ---------------------------------------------------------------------------------------

  const RegenChance: real := 0.2

  /** A card below 7 motivation and not mindblocked regains one point when its roll is under 0.2. */
  predicate Regains(c: Card, now: int, roll: Roll)
  {
    c.jobMotivation < 7 && !c.Mindblocked(now) && roll < RegenChance
  }

  /** The cards after one regeneration pass (written with update, which skips the burn-value hook). */
  function Regenerated(cards: map<CardId, Card>, now: int, rolls: CardId -> Roll): (cards': map<CardId, Card>)
  {
    map id | id in cards :: if Regains(cards[id], now, rolls(id)) then cards[id].(jobMotivation := cards[id].jobMotivation + 1) else cards[id]
  }

  /**
   * Regeneration raises motivation by at most one, only for cards below 7 that are not
   * mindblocked, so it never lifts a card above 7, and changes nothing else.
   */
  lemma {:induction false} RegeneratedEffect(cards: map<CardId, Card>, mappers: map<MapperId, Mapper>, now: int, rolls: CardId -> Roll)
    ensures var cards' := Regenerated(cards, now, rolls);
      cards'.Keys == cards.Keys &&
      (forall id :: id in cards ==>
        cards'[id].(jobMotivation := cards[id].jobMotivation) == cards[id] &&
        cards[id].jobMotivation <= cards'[id].jobMotivation <= cards[id].jobMotivation + 1 &&
        (cards'[id].jobMotivation > cards[id].jobMotivation ==> cards'[id].jobMotivation <= 7 && !cards[id].Mindblocked(now))) &&
      (CardsValid(cards, mappers) ==> CardsValid(cards', mappers))
  {
  }

  /** A card as one regeneration pass leaves it. */
  function RegeneratedCard(c: Card, now: int, roll: Roll): Card
  {
    if Regains(c, now, roll) then c.(jobMotivation := c.jobMotivation + 1) else c
  }

  /** Pointwise agreement with the regenerated table gives the table. */
  lemma {:induction false} RegeneratedPointwise(cards: map<CardId, Card>, cards': map<CardId, Card>, now: int, rolls: CardId -> Roll)
    requires cards'.Keys == cards.Keys && forall id :: id in cards ==> cards'[id] == RegeneratedCard(cards[id], now, rolls(id))
    ensures cards' == Regenerated(cards, now, rolls)
  {
  }

  /** The regeneration pass over a snapshot of the card table, one card at a time. */
  method RegenerateAll(cards: map<CardId, Card>, now: int, rolls: CardId -> Roll) returns (cards': map<CardId, Card>)
    ensures cards' == Regenerated(cards, now, rolls)
  {
    cards' := cards;
    var todo := cards.Keys;
    while todo != {}
      invariant todo <= cards.Keys && cards'.Keys == cards.Keys
      invariant forall id :: id in cards ==>
        cards'[id] == if id in todo then cards[id] else RegeneratedCard(cards[id], now, rolls(id))
      decreases |todo|
    {
      var id :| id in todo;
      if Regains(cards'[id], now, rolls(id)) {
        cards' := cards'[id := cards'[id].(jobMotivation := cards'[id].jobMotivation + 1)];
      }
      todo := todo - {id};
    }
    RegeneratedPointwise(cards, cards', now, rolls);
  }

  /**
   * updateMotivation: visit every card, raising those that regain, then write the motivations
   * back. (The source writes back every candidate's motivation, changed or not, which leaves
   * the same table.)
   */
  method UpdateMotivation(w: World, now: int, rolls: CardId -> Roll)
    requires w.Valid()
    modifies w`cards
    ensures w.Valid()
    ensures w.cards == Regenerated(old(w.cards), now, rolls)
  {
    var cards := RegenerateAll(w.cards, now, rolls);
    RegeneratedEffect(w.cards, w.mappers, now, rolls);
    w.cards := cards;
  }
}
