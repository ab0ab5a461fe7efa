/** Hit points as the match server counts them, in 16 bits, and what raises them. */
module Vitals {

  const U16 := 0x1_0000

  type u16 = x: nat | x < U16

  const REVIVE_HP := 20
  const MEDKIT_STEPS := 75
  const MAX_EP := 200

  /** What one tick of a medkit can give, and what one tick of the energy can. */
  type Dose = x: nat | x <= MEDKIT_STEPS

  type Ration = x: nat | x <= MAX_EP

  /** The most hit points that somebody alive can have: full ones, or the fixed number a revive gives. */
  function Cap(maxHP: nat): nat {
    if maxHP < REVIVE_HP then REVIVE_HP else maxHP
  }

  /** hp plus gain as a 16-bit number, capped. */
  function Topped(hp: nat, gain: nat, maxHP: nat): nat {
    if (hp + gain) % U16 > maxHP then maxHP else (hp + gain) % U16
  }

  /** hp below full plus gain as far as there is room, in 16 bits. */
  function Fed(hp: nat, gain: nat, maxHP: nat): nat
    requires hp <= maxHP
  {
    (hp + if (hp + gain) % U16 > maxHP then maxHP - hp else gain) % U16
  }

  /** Where nothing wraps, both stop at full hit points. */
  lemma NoWrap(hp: nat, gain: nat, maxHP: nat)
    requires hp + gain < U16
    ensures Topped(hp, gain, maxHP) == if hp + gain > maxHP then maxHP else hp + gain
    ensures hp <= maxHP < U16 ==> Fed(hp, gain, maxHP) == if hp + gain > maxHP then maxHP else hp + gain
  {
  }
}
