/**
 * The card record and its derived values (src/entities/card.ts): burn value, dust,
 * attributes, job effort and mindblock. Clock reads are the parameter `now` (ms).
 */
module Cards {
  import opened Types
  import opened Entities
  import opened Numeric

  /** Default of the job_motivation column. */
  const DefaultMotivation: int := 7
  /** Default of the job_base_effort column. */
  const DefaultBaseEffort: int := 0

  /** A card row; the mapper and condition relations are carried by key. */
  datatype Card = Card(
    mapper: MapperId,
    owner: Option<UserId>,
    droppedBy: UserId,
    claimedBy: Option<UserId>,
    createdAt: int,
    condition: Tier,
    burned: bool,
    foil: bool,
    burnValue: int,
    jobBaseEffort: int,
    jobMotivation: int,
    jobMindblockedUntil: Option<int>)
  {
    /** `jobMindblocked` at time now. */
    predicate Mindblocked(now: int)
    {
      JobMindblocked(jobMindblockedUntil, now)
    }

    /** `jobEffort` at time now. */
    function Effort(now: int): int
    {
      JobEffort(jobBaseEffort, jobMotivation, Mindblocked(now))
    }
  }

  /** rarity * multiplier * 5, doubled for a foil card, rounded up. */
  function BurnValue(rarity: int, multiplier: real, foil: bool): (v: int)
    ensures var x := rarity as real * multiplier * 5.0 * (if foil then 2.0 else 1.0);
            x <= v as real < x + 1.0
  {
    var value := rarity as real * multiplier * 5.0;
    Ceil(if foil then value * 2.0 else value)
  }

  /**
   * calculateBurnValue, the insert/update hook: the card's burnValue is recomputed from its
   * mapper's rarity and its condition's multiplier, and no other column changes.
   */
  function CalculateBurnValue(c: Card, rarity: int, multiplier: real): (c': Card)
    ensures c'.burnValue == BurnValue(rarity, multiplier, c.foil)
    ensures c'.(burnValue := c.burnValue) == c
  {
    c.(burnValue := BurnValue(rarity, multiplier, c.foil))
  }

  /** Recomputing twice is the same as once: the hook is idempotent. */
  lemma {:induction false} CalculateBurnValueIdempotent(c: Card, rarity: int, multiplier: real)
    ensures CalculateBurnValue(CalculateBurnValue(c, rarity, multiplier), rarity, multiplier)
         == CalculateBurnValue(c, rarity, multiplier)
  {
  }

  /** A foil card burns for twice the plain value, or one less (the plain product is rounded up once). */
  lemma {:induction false} FoilBurnValue(rarity: int, multiplier: real)
    ensures 2 * BurnValue(rarity, multiplier, false) - 1 <= BurnValue(rarity, multiplier, true)
    ensures BurnValue(rarity, multiplier, true) <= 2 * BurnValue(rarity, multiplier, false)
  {
    var x := rarity as real * multiplier * 5.0;
    var p := BurnValue(rarity, multiplier, false);
    var f := BurnValue(rarity, multiplier, true);
    assert x <= p as real < x + 1.0;
    assert x * 2.0 <= f as real < x * 2.0 + 1.0;
  }

  /** A better multiplier never lowers the burn value of a card with non-negative rarity. */
  lemma {:induction false} BurnValueMonotone(rarity: int, m1: real, m2: real, foil: bool)
    requires rarity >= 0 && m1 <= m2
    ensures BurnValue(rarity, m1, foil) <= BurnValue(rarity, m2, foil)
  {
    var r := rarity as real;
    assert r * m1 <= r * m2;
    var k := if foil then 2.0 else 1.0;
    CeilMonotone(r * m1 * 5.0 * k, r * m2 * 5.0 * k);
  }

  /** dustValue: a tenth of the rarity, rounded up. */
  function DustValue(rarity: int): (d: int)
    ensures rarity as real * 0.1 <= d as real < rarity as real * 0.1 + 1.0
  {
    Ceil(rarity as real * 0.1)
  }

  /** Every card of positive rarity yields at least one dust, and never more than its rarity. */
  lemma {:induction false} DustValueBounds(rarity: int)
    requires rarity >= 1
    ensures 1 <= DustValue(rarity) <= rarity
  {
  }

  /** dustType: the dust item a card of each condition burns into. */
  function DustType(t: Tier): ItemId
  {
    match t
    case BadlyDamaged => "damaged dust"
    case Poor => "poor dust"
    case Good => "good dust"
    case Mint => "mint dust"
  }

  /** Each condition has its own dust item, and no dust item is gold. */
  lemma {:induction false} DustTypeInjective(s: Tier, t: Tier)
    ensures DustType(s) == DustType(t) <==> s == t
    ensures DustType(s) != Gold
  {
  }

  /** attributes: the card's display tags. */
  function Attributes(foil: bool): (a: seq<string>)
    ensures |a| <= 1
    ensures "Foil" in a <==> foil
  {
    if foil then ["Foil"] else []
  }

  /** jobMindblocked: a mindblock date is set and lies strictly in the future. */
  function JobMindblocked(until: Option<int>, now: int): bool
  {
    until.Some? && now < until.value
  }

  /** A mindblock ends at its date and, once over, never comes back without a new date. */
  lemma {:induction false} MindblockLapses(until: Option<int>, now: int, later: int)
    requires now <= later
    ensures JobMindblocked(until, later) ==> JobMindblocked(until, now)
    ensures until.Some? && later >= until.value ==> !JobMindblocked(until, later)
    ensures until.None? ==> !JobMindblocked(until, now)
  {
  }

  /** jobEffort: base * motivation / 10, halved when mindblocked, rounded half up. */
  function JobEffort(base: int, motivation: int, mindblocked: bool): (e: int)
    ensures var x := base as real * motivation as real * 0.1 * (if mindblocked then 0.5 else 1.0);
            x - 0.5 < e as real <= x + 0.5
  {
    Round(base as real * motivation as real * 0.1 * (if mindblocked then 0.5 else 1.0))
  }

  /** Effort is never negative for a non-negative base and motivation. */
  lemma {:induction false} JobEffortNonNegative(base: int, motivation: int, mindblocked: bool)
    requires base >= 0 && motivation >= 0
    ensures JobEffort(base, motivation, mindblocked) >= 0
  {
    assert base as real * motivation as real >= 0.0;
  }

  /** A mindblock never raises effort. */
  lemma {:induction false} MindblockNeverRaisesEffort(base: int, motivation: int)
    requires base >= 0 && motivation >= 0
    ensures JobEffort(base, motivation, true) <= JobEffort(base, motivation, false)
  {
    var x := base as real * motivation as real * 0.1;
    assert x >= 0.0;
    RoundMonotone(x * 0.5, x * 1.0);
  }

  /** More motivation never lowers effort. */
  lemma {:induction false} EffortMonotoneInMotivation(base: int, m1: int, m2: int, mindblocked: bool)
    requires base >= 0 && 0 <= m1 <= m2
    ensures JobEffort(base, m1, mindblocked) <= JobEffort(base, m2, mindblocked)
  {
    RoundScaledMonotone(base as real, m1 as real, m2 as real, mindblocked);
  }

  /** Scaling two ordered values by the same non-negative base and the effort factor, then rounding, keeps them ordered. */
  lemma {:induction false} RoundScaledMonotone(b: real, x: real, y: real, mindblocked: bool)
    requires b >= 0.0 && x <= y
    ensures Round(b * x * 0.1 * (if mindblocked then 0.5 else 1.0)) <= Round(b * y * 0.1 * (if mindblocked then 0.5 else 1.0))
  {
    ScaleMonotone(b, x, y);
    RoundMonotone(b * x * 0.1 * (if mindblocked then 0.5 else 1.0), b * y * 0.1 * (if mindblocked then 0.5 else 1.0));
  }

  lemma {:induction false} ScaleMonotone(c: real, x: real, y: real)
    requires c >= 0.0 && x <= y
    ensures c * x <= c * y
  {
    assert c * y - c * x == c * (y - x);
  }
}
