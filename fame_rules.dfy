/** How a single fame record (one zone category of one player) changes under
    each rule of the fame service: experience gain, death loss and weekly decay.
    Each rule is a function from the old record state to the new one. */
module FameRules {
  import opened LevelTable

  /** The mutable part of a fame record: the level, the experience gathered
      within that level, and the experience lost on death that can be
      recovered later. */
  datatype Fame = Fame(level: int, exp: int, expLoss: int)

  /** The state of a record created at login. */
  const NEW_FAME := Fame(1, 0, 0)

  /** The factor the death rule multiplies exp by to get the loss
      (the literal 0 in the service). */
  const DEATH_EXP_MULTIPLIER: int := 0

  /** The factor the weekly rule multiplies exp by to get the reduction
      (the literal 0 in the service). */
  const WEEKLY_EXP_MULTIPLIER: int := 0

  // ---------------------------------------------------------------------
  // Experience gain
  // ---------------------------------------------------------------------

  /** Adds `points` to a record: clamp at the maximum level, else at most one
      level-up carrying the overflow, else a plain add. */
  function Gain(f: Fame, points: int, expForLevel: Thresholds): Fame
  {
    var exp := f.exp;
    if f.level == MAX_LEVEL && exp + points > expForLevel(f.level) then
      f.(exp := expForLevel(MAX_LEVEL))
    else if exp + points >= expForLevel(f.level) then
      Fame(f.level + 1, exp + points - expForLevel(f.level), f.expLoss)
    else
      f.(exp := exp + points)
  }

  /** At the maximum level, overflowing the threshold pins exp to the
      threshold of level 9 and keeps the level. */
  lemma GainClampsAtMax(f: Fame, points: int, expForLevel: Thresholds)
    requires f.level == MAX_LEVEL && f.exp + points > expForLevel(f.level)
    ensures Gain(f, points, expForLevel) == Fame(MAX_LEVEL, expForLevel(9), f.expLoss)
  {
  }

  /** Reaching the threshold (outside the clamp) raises the level by exactly
      one and carries what exceeds the old level's threshold. */
  lemma GainLevelsUpOnce(f: Fame, points: int, expForLevel: Thresholds)
    requires !(f.level == MAX_LEVEL && f.exp + points > expForLevel(f.level))
    requires f.exp + points >= expForLevel(f.level)
    ensures Gain(f, points, expForLevel).level == f.level + 1
    ensures Gain(f, points, expForLevel).exp == f.exp + points - expForLevel(f.level)
    ensures Gain(f, points, expForLevel).expLoss == f.expLoss
  {
  }

  /** Below the threshold the points are simply added. */
  lemma GainAddsBelowThreshold(f: Fame, points: int, expForLevel: Thresholds)
    requires f.exp + points < expForLevel(f.level)
    ensures Gain(f, points, expForLevel) == f.(exp := f.exp + points)
  {
  }

  /** Outside the clamp no experience is created or destroyed: the new exp
      plus the threshold consumed by a level-up is the old exp plus points. */
  lemma GainConservesExp(f: Fame, points: int, expForLevel: Thresholds)
    requires !(f.level == MAX_LEVEL && f.exp + points > expForLevel(f.level))
    ensures var r := Gain(f, points, expForLevel);
      (r.level == f.level + 1 && r.exp + expForLevel(f.level) == f.exp + points) ||
      (r.level == f.level && r.exp == f.exp + points)
  {
  }

  /** The clamp uses `>` and the level-up `>=`: a record at level 9 passes
      the maximum exactly when its exp plus points equals the threshold. */
  lemma GainExceedsMaxLevelIff(f: Fame, points: int, expForLevel: Thresholds)
    requires f.level <= MAX_LEVEL
    ensures Gain(f, points, expForLevel).level > MAX_LEVEL <==>
            f.level == MAX_LEVEL && f.exp + points == expForLevel(MAX_LEVEL)
  {
  }

  /** With a configured table and non-negative points, a record inside the
      level range keeps a non-negative exp and a level in 1..MAX_LEVEL + 1. */
  lemma GainKeepsExpNonNegative(f: Fame, points: int, expForLevel: Thresholds)
    requires Configured(expForLevel)
    requires 1 <= f.level <= MAX_LEVEL && 0 <= f.exp && 0 <= points
    ensures 0 <= Gain(f, points, expForLevel).exp
    ensures f.level <= Gain(f, points, expForLevel).level <= f.level + 1
    ensures Gain(f, points, expForLevel).level <= MAX_LEVEL + 1
  {
  }

  /** Gaining zero points leaves a record as it is exactly when its exp is
      below its level's threshold; otherwise it clamps or levels up. */
  lemma GainZeroIsIdentityIff(f: Fame, expForLevel: Thresholds)
    ensures Gain(f, 0, expForLevel) == f <==> f.exp < expForLevel(f.level)
  {
  }

  /** Only one level-up per gain: with every threshold 10, 25 points on a
      fresh record give level 2 with exp 15, already past level 2's threshold. */
  lemma GainNoSecondLevelUp()
    ensures var expForLevel := (level: int) => 10;
      Gain(NEW_FAME, 25, expForLevel) == Fame(2, 15, 0) &&
      Gain(NEW_FAME, 25, expForLevel).exp >= expForLevel(2)
  {
  }

  // ---------------------------------------------------------------------
  // Death loss
  // ---------------------------------------------------------------------

  /** The part of a loss that cannot be recovered: loss * 0.22222222
      truncated toward zero, computed in exact decimal arithmetic. */
  function Unrecoverable(loss: int): (r: int)
    ensures 0 <= loss ==> 0 <= r <= loss
    ensures loss <= 0 ==> loss <= r <= 0
    ensures 100000000 * (if r < 0 then -r else r) <= 22222222 * (if loss < 0 then -loss else loss)
    ensures 22222222 * (if loss < 0 then -loss else loss) < 100000000 * ((if r < 0 then -r else r) + 1)
  {
    if loss >= 0 then loss * 22222222 / 100000000
    else -((-loss) * 22222222 / 100000000)
  }

  /** Applies a death loss of `loss` experience to a record. The zeroing
      test compares the LEVEL with the loss, as the service does. */
  function LoseExp(f: Fame, loss: int): Fame
  {
    var unrecoverable := Unrecoverable(loss);
    var recoverable := loss - unrecoverable;
    Fame(f.level, if f.level - loss < 0 then 0 else f.exp - loss, f.expLoss + recoverable)
  }

  /** The loss a death costs a record with `exp` experience. */
  function DeathLoss(exp: int): int
  {
    exp * DEATH_EXP_MULTIPLIER
  }

  /** The death rule as configured. */
  function Die(f: Fame): Fame
  {
    LoseExp(f, DeathLoss(f.exp))
  }

  /** A loss is split into an unrecoverable and a recoverable part that add
      up to it; only the recoverable part is added to expLoss, the level is
      kept, and exp drops to 0 exactly when the level is below the loss. */
  lemma LoseExpSplitsLoss(f: Fame, loss: int)
    ensures var r := LoseExp(f, loss);
      r.level == f.level &&
      (r.expLoss - f.expLoss) + Unrecoverable(loss) == loss &&
      (0 <= loss ==> f.expLoss <= r.expLoss <= f.expLoss + loss) &&
      (f.level < loss ==> r.exp == 0) &&
      (loss <= f.level ==> r.exp == f.exp - loss)
  {
  }

  /** The zeroing test looks at the level, not at exp: a level-2 record with
      100 exp losing 5 ends with exp 0, and 4 of the 5 become recoverable. */
  lemma LoseExpComparesLevelNotExp()
    ensures LoseExp(Fame(2, 100, 0), 5) == Fame(2, 0, 4)
  {
  }

  /** With the multiplier at 0 a death costs nothing, yet since the zeroing
      test compares the level with the loss, a record whose level has decayed
      below 0 still has its exp wiped: the record is unchanged exactly when
      its level is non-negative or its exp is already 0. */
  lemma DieIsIdentityIff(f: Fame)
    ensures DeathLoss(f.exp) == 0
    ensures Die(f) == f <==> 0 <= f.level || f.exp == 0
    ensures f.level < 0 ==> Die(f) == f.(exp := 0)
  {
  }

  // ---------------------------------------------------------------------
  // Weekly decay
  // ---------------------------------------------------------------------

  /** Math.round(exp * 0.015) in exact decimal arithmetic: the integer
      nearest to exp * 15 / 1000, halves rounded up. */
  function RoundPenalty(exp: int): (r: int)
    ensures 1000 * r <= 15 * exp + 500 < 1000 * r + 1000
  {
    (15 * exp + 500) / 1000
  }

  /** The weekly reduction of a record with `exp` experience. */
  function WeeklyReduce(exp: int): int
  {
    exp * WEEKLY_EXP_MULTIPLIER
  }

  /** Decays a record by `reduce`: when nothing would remain the record drops
      one level (no floor) and restarts at its new level's threshold less a
      1.5% penalty on the old exp; otherwise exp shrinks by `reduce`. */
  function DecayBy(f: Fame, reduce: int, expForLevel: Thresholds): Fame
  {
    if f.exp - reduce <= 0 then
      var level := f.level - 1;
      Fame(level, expForLevel(level) - RoundPenalty(f.exp), f.expLoss)
    else
      f.(exp := f.exp - reduce)
  }

  /** The weekly rule as configured. */
  function Decay(f: Fame, expForLevel: Thresholds): Fame
  {
    DecayBy(f, WeeklyReduce(f.exp), expForLevel)
  }

  /** Whatever the reduction, a record is demoted by one level exactly when
      the reduction uses up its exp, and is never promoted. */
  lemma DecayByDemotesIff(f: Fame, reduce: int, expForLevel: Thresholds)
    ensures DecayBy(f, reduce, expForLevel).level == f.level - 1 <==> f.exp <= reduce
    ensures reduce < f.exp ==> DecayBy(f, reduce, expForLevel).level == f.level
    ensures DecayBy(f, reduce, expForLevel).expLoss == f.expLoss
  {
  }

  /** With the multiplier at 0, a record holding experience is untouched. */
  lemma DecayKeepsPositiveExp(f: Fame, expForLevel: Thresholds)
    requires f.exp > 0
    ensures Decay(f, expForLevel) == f
  {
  }

  /** With the multiplier at 0, a record without experience is demoted one
      level and restarts at that level's threshold less the penalty, which
      is nothing when exp is 0. */
  lemma DecayDemotesEmpty(f: Fame, expForLevel: Thresholds)
    requires f.exp <= 0
    ensures Decay(f, expForLevel) ==
            Fame(f.level - 1, expForLevel(f.level - 1) - RoundPenalty(f.exp), f.expLoss)
    ensures f.exp == 0 ==> Decay(f, expForLevel).exp == expForLevel(f.level - 1)
  {
  }

  /** There is no floor at level 1: an empty level-1 record decays to level 0. */
  lemma DecayHasNoFloor(expLoss: int, expForLevel: Thresholds)
    ensures Decay(Fame(1, 0, expLoss), expForLevel) == Fame(0, expForLevel(0), expLoss)
  {
  }
}
