/** Percentage-to-throttle policy (main/controller_policy.c). */
module Policy {

  /** Smallest and largest throttle; 1..47 are reserved DShot commands. */
  const THROTTLE_MIN := 48
  const THROTTLE_MAX := 2047

  function Capped(pct: nat): (capped: nat)
    ensures capped <= 100 && capped <= pct && (capped == pct || capped == 100)
  {
    if pct > 100 then 100 else pct
  }

  /** A nonzero request is raised to the minimum spin: the larger of the two, at most 100. */
  function EffectivePct(requested: nat, minSpin: nat): (pct: nat)
    ensures pct <= 100
    ensures pct == 0 <==> requested == 0
    ensures requested > 0 ==> pct >= Capped(minSpin) && pct >= Capped(requested)
    ensures requested > 0 ==> pct == Capped(minSpin) || pct == Capped(requested)
  {
    if requested == 0 then 0 else
    var wanted, floor := Capped(requested), Capped(minSpin);
    if wanted < floor then floor else wanted
  }

  function PctToDshot(requested: nat, minSpin: nat): (throttle: nat)
    ensures throttle == 0 <==> requested == 0
    ensures throttle == 0 || THROTTLE_MIN < throttle <= THROTTLE_MAX
    ensures var pct := EffectivePct(requested, minSpin);
            && (pct == 100 ==> throttle == THROTTLE_MAX)
            && (pct > 0 ==> pct * 1999 - 100 < 100 * (throttle - THROTTLE_MIN) <= pct * 1999)
  {
    var pct := EffectivePct(requested, minSpin);
    if pct == 0 then 0 else 48 + pct * (2047 - 48) / 100
  }

  /** The throttle is a function of the effective percentage and determines it. */
  lemma ThrottleEncodesEffective(p: nat, q: nat, minSpin: nat)
    ensures PctToDshot(EffectivePct(p, minSpin), minSpin) == PctToDshot(p, minSpin)
    ensures PctToDshot(p, minSpin) == PctToDshot(q, minSpin) <==>
            EffectivePct(p, minSpin) == EffectivePct(q, minSpin)
  {
    var e, d := EffectivePct(p, minSpin), EffectivePct(q, minSpin);
    if e < d {
      assert e * 1999 / 100 < d * 1999 / 100;
    } else if d < e {
      assert d * 1999 / 100 < e * 1999 / 100;
    }
  }
}
