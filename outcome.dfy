/** The result of a game or hole as stored in three bits
    (`Outcome` in src/packets/mod.rs). */
module Outcomes {

  datatype Outcome = Invalid | Aborted | Lose | Draw | Win | UnearnedWin | Conv

  /** `Outcome::to_u32`: the variant's number, 0 to 6, so it fits a 3-bit
      field; reading it back gives the same variant. */
  function ToU32(o: Outcome): (v: bv32)
    ensures v <= 6
    ensures FromU32(v) == o
  {
    match o
    case Invalid => 0
    case Aborted => 1
    case Lose => 2
    case Draw => 3
    case Win => 4
    case UnearnedWin => 5
    case Conv => 6
  }

  /** `Outcome::from_u32`: 1 to 6 name a variant, everything else is
      `Invalid`. */
  function FromU32(v: bv32): (o: Outcome)
    ensures (v == 0 || v > 6) ==> o == Invalid
    ensures 1 <= v <= 6 ==> o != Invalid
  {
    match v
    case 1 => Aborted
    case 2 => Lose
    case 3 => Draw
    case 4 => Win
    case 5 => UnearnedWin
    case 6 => Conv
    case _ => Invalid
  }

  /** The codes 1 to 6 survive a read and a write. */
  lemma ToU32FromU32(v: bv32)
    requires 1 <= v <= 6
    ensures ToU32(FromU32(v)) == v
  {
  }
}
