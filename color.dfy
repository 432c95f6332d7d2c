/** The `Color` enumeration of the car model and its name lookup. */
module Colors {
  import opened Results
  import opened AsciiCase

  /** The enumeration's constants. */
  datatype Color = RED | BLUE | GREEN

  /** `Enum.name()`: the constant's identifier, in upper-case ASCII. */
  function Name(c: Color): (n: string)
    ensures |n| > 0
    ensures forall i :: 0 <= i < |n| ==> IsUpper(n[i])
  {
    match c
    case RED => "RED"
    case BLUE => "BLUE"
    case GREEN => "GREEN"
  }

  /** `Color.valueOf`: an exact, case-sensitive lookup by constant name; `None` where
      Java throws `IllegalArgumentException`. */
  function ValueOf(s: string): (r: Option<Color>)
    ensures forall c :: r == Some(c) <==> Name(c) == s
  {
    if s == "RED" then Some(RED)
    else if s == "BLUE" then Some(BLUE)
    else if s == "GREEN" then Some(GREEN)
    else None
  }

  /** A constant's name is its own upper case and the upper case of its lower case,
      so the lower-case wire form upper-cases back to the name. */
  lemma NameSurvivesCaseMapping(c: Color)
    ensures ToUpper(Name(c)) == Name(c)
    ensures ToUpper(ToLower(Name(c))) == Name(c)
  {
  }
}
