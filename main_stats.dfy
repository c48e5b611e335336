/**
 * The main stats of a plan card: the talent level bounds and the effect that
 * pulls the talent levels back inside them, plus the input ranges of the
 * other stats.
 */
module MainStats {
  datatype Bounds = Bounds(min: int, max: int)

  datatype TalentBounds = TalentBounds(skill: Bounds, burst: Bounds)

  /** The only bounds in use: skill and burst both from 1 to 13. */
  const SIMPLE_BOUNDS := TalentBounds(Bounds(1, 13), Bounds(1, 13))

  /** The input ranges of the stats without an effect. */
  const LEVEL_RANGE := Bounds(1, 90)
  const CONSTELLATION_RANGE := Bounds(0, 6)
  const ATTACK_RANGE := Bounds(1, 10)

  /** `getTalentBounds`: the constellation is not read; every plan gets 1 to 13 for both talents. */
  function GetTalentBounds(constellation: int): (b: TalentBounds)
    ensures b.skill.min == 1 && b.skill.max == 13 && b.burst.min == 1 && b.burst.max == 13
  {
    SIMPLE_BOUNDS
  }

  /** The skill and burst input ranges: from the current bounds' minimum to the target bounds' maximum. */
  function SkillRange(constellationCurrent: int, constellationTarget: int): (r: Bounds)
    ensures r == Bounds(GetTalentBounds(constellationCurrent).skill.min, GetTalentBounds(constellationTarget).skill.max)
    ensures r == Bounds(1, 13)
  {
    Bounds(GetTalentBounds(constellationCurrent).skill.min, GetTalentBounds(constellationTarget).skill.max)
  }

  function BurstRange(constellationCurrent: int, constellationTarget: int): (r: Bounds)
    ensures r == Bounds(GetTalentBounds(constellationCurrent).burst.min, GetTalentBounds(constellationTarget).burst.max)
    ensures r == Bounds(1, 13)
  {
    Bounds(GetTalentBounds(constellationCurrent).burst.min, GetTalentBounds(constellationTarget).burst.max)
  }

  /** The four talent levels the effect watches. */
  datatype Talents = Talents(skillCurrent: int, skillTarget: int, burstCurrent: int, burstTarget: int)

  /**
   * A current level below the current minimum is raised to it; above the
   * target maximum it is set to `high`, which the skill takes from the target
   * bounds and the burst from the current bounds.
   */
  function ClampCurrent(v: int, current: Bounds, target: Bounds, high: int): int {
    if v < current.min then current.min else if v > target.max then high else v
  }

  /**
   * A target level above the target maximum, or at the simple maximum when
   * the target maximum differs from it, is set to the target maximum; a
   * target is never raised.
   */
  function ClampTarget(v: int, simpleMax: int, target: Bounds): int {
    if (simpleMax != target.max && v == simpleMax) || v > target.max then target.max else v
  }

  /** The talent levels after the effect for the given bounds. */
  function Clamped(t: Talents, current: TalentBounds, target: TalentBounds): (r: Talents)
    ensures r.skillTarget <= target.skill.max && r.burstTarget <= target.burst.max
    ensures t.skillTarget <= target.skill.max && t.skillTarget != SIMPLE_BOUNDS.skill.max ==> r.skillTarget == t.skillTarget
    ensures r.skillCurrent == t.skillCurrent <==>
              (current.skill.min <= t.skillCurrent <= target.skill.max ||
               (t.skillCurrent < current.skill.min && current.skill.min == t.skillCurrent) ||
               (t.skillCurrent > target.skill.max && target.skill.max == t.skillCurrent))
  {
    Talents(ClampCurrent(t.skillCurrent, current.skill, target.skill, target.skill.max),
            ClampTarget(t.skillTarget, SIMPLE_BOUNDS.skill.max, target.skill),
            ClampCurrent(t.burstCurrent, current.burst, target.burst, current.burst.max),
            ClampTarget(t.burstTarget, SIMPLE_BOUNDS.burst.max, target.burst))
  }

  /** The plan draft's talent fields, which the effect's `mutate` callbacks assign. */
  class TalentDraft {
    var skillCurrent: int
    var skillTarget: int
    var burstCurrent: int
    var burstTarget: int

    function Value(): Talents
      reads this
    {
      Talents(skillCurrent, skillTarget, burstCurrent, burstTarget)
    }

    constructor(t: Talents)
      ensures Value() == t
    {
      skillCurrent := t.skillCurrent;
      skillTarget := t.skillTarget;
      burstCurrent := t.burstCurrent;
      burstTarget := t.burstTarget;
    }
  }

  /**
   * The clamping effect on a plan with the given constellations: each field
   * out of bounds is assigned once, the others are left alone.
   */
  method ClampEffect(d: TalentDraft, constellationCurrent: int, constellationTarget: int)
    modifies d
    ensures d.Value() == Clamped(old(d.Value()), GetTalentBounds(constellationCurrent), GetTalentBounds(constellationTarget))
  {
    var currentBounds := GetTalentBounds(constellationCurrent);
    var targetBounds := GetTalentBounds(constellationTarget);
    // The effect compares the plan as rendered, then assigns draft fields.
    var plan := d.Value();
    if plan.skillCurrent < currentBounds.skill.min {
      d.skillCurrent := currentBounds.skill.min;
    } else if plan.skillCurrent > targetBounds.skill.max {
      d.skillCurrent := targetBounds.skill.max;
    }
    if (SIMPLE_BOUNDS.skill.max != targetBounds.skill.max && plan.skillTarget == SIMPLE_BOUNDS.skill.max)
       || plan.skillTarget > targetBounds.skill.max {
      d.skillTarget := targetBounds.skill.max;
    }
    if plan.burstCurrent < currentBounds.burst.min {
      d.burstCurrent := currentBounds.burst.min;
    } else if plan.burstCurrent > targetBounds.burst.max {
      d.burstCurrent := currentBounds.burst.max;
    }
    if (SIMPLE_BOUNDS.burst.max != targetBounds.burst.max && plan.burstTarget == SIMPLE_BOUNDS.burst.max)
       || plan.burstTarget > targetBounds.burst.max {
      d.burstTarget := targetBounds.burst.max;
    }
  }

  /**
   * With the bounds in use, the effect puts both current levels in 1..13 and
   * both targets at 13 or below, leaves a target below 1 where it is, and a
   * second run changes nothing.
   */
  lemma ClampedInBounds(t: Talents, constellationCurrent: int, constellationTarget: int)
    ensures var r := Clamped(t, GetTalentBounds(constellationCurrent), GetTalentBounds(constellationTarget));
            1 <= r.skillCurrent <= 13 && 1 <= r.burstCurrent <= 13 &&
            r.skillTarget <= 13 && r.burstTarget <= 13 &&
            (t.skillTarget < 1 ==> r.skillTarget == t.skillTarget) &&
            (t.burstTarget < 1 ==> r.burstTarget == t.burstTarget) &&
            Clamped(r, GetTalentBounds(constellationCurrent), GetTalentBounds(constellationTarget)) == r
  {
  }

  /**
   * The burst current is lowered to the current bounds' maximum, not the
   * target's: with bounds that differ, as the commented-out constellation
   * tiers would give, it can end above the target maximum. The bounds in use
   * are equal, so the effect never shows this.
   */
  lemma BurstLoweredToCurrentMax()
    ensures var current := TalentBounds(Bounds(1, 10), Bounds(4, 13));
            var target := TalentBounds(Bounds(1, 10), Bounds(1, 10));
            Clamped(Talents(5, 5, 12, 5), current, target).burstCurrent == 13 &&
            13 > target.burst.max
    ensures forall c1, c2 :: GetTalentBounds(c1).burst.max == GetTalentBounds(c2).burst.max
  {
  }
}
