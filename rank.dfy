/** Player classes and ranks (src/data/mod.rs). Each of the eight classes,
    G up to S, is split into four ranks, 4 (lowest) to 1. */
module Ranks {

  datatype Class = G | F | E | D | C | B | A | S

  /** The wire value of a class, 0 for G up to 7 for S. */
  function ClassValue(c: Class): (v: int)
    ensures 0 <= v < 8
  {
    match c
    case G => 0
    case F => 1
    case E => 2
    case D => 3
    case C => 4
    case B => 5
    case A => 6
    case S => 7
  }

  /** A rank, by its wire value: 0 is G4, 3 is G1, 4 is F4, ..., 31 is S1. */
  type Rank = r: int | 0 <= r < 32

  /** `Rank::class`: the class a rank belongs to. */
  function RankClass(r: Rank): (c: Class)
    ensures 4 * ClassValue(c) <= r < 4 * ClassValue(c) + 4
  {
    match r
    case 0 | 1 | 2 | 3 => G
    case 4 | 5 | 6 | 7 => F
    case 8 | 9 | 10 | 11 => E
    case 12 | 13 | 14 | 15 => D
    case 16 | 17 | 18 | 19 => C
    case 20 | 21 | 22 | 23 => B
    case 24 | 25 | 26 | 27 => A
    case _ => S
  }

  /** Each block of four consecutive ranks is one class: the class value is
      the rank value divided by four. */
  lemma RankClassIsQuarter(r: Rank)
    ensures ClassValue(RankClass(r)) == r / 4
  {
  }
}
