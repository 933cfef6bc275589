/** The seven playable characters and their one-based wire index. */
module CharIds {
  import opened Wrappers

  datatype CharID = Rusk | Miel | Rose | Chocola | Shelly | Gouda | Sect

  /** The index used in item codes and appearance words; always in 1..=7,
      and `FromIndex` inverts it. */
  function ToIndex(c: CharID): (i: bv32)
    ensures 1 <= i <= 7
    ensures FromIndex(i) == Some(c)
  {
    match c
    case Rusk => 1
    case Miel => 2
    case Rose => 3
    case Chocola => 4
    case Shelly => 5
    case Gouda => 6
    case Sect => 7
  }

  /** Partial inverse of `ToIndex`: defined exactly on 1..=7. */
  function FromIndex(index: bv32): (r: Option<CharID>)
    ensures r.None? <==> (index == 0 || index > 7)
  {
    match index
    case 1 => Some(Rusk)
    case 2 => Some(Miel)
    case 3 => Some(Rose)
    case 4 => Some(Chocola)
    case 5 => Some(Shelly)
    case 6 => Some(Gouda)
    case 7 => Some(Sect)
    case _ => None
  }

  /** `ToIndex` is injective: distinct characters never share an index. */
  lemma ToIndexInjective(a: CharID, b: CharID)
    requires ToIndex(a) == ToIndex(b)
    ensures a == b
  {
    assert FromIndex(ToIndex(a)) == Some(a);
  }
}
