/** The fixed palette of ball colours and their two-letter codes. */
module Colors {
  import opened Wrappers

  /** The fifteen colours a ball may have. */
  datatype Color =
    | Re  // red
    | Or  // orange
    | Ye  // yellow
    | LG  // light green
    | BG  // bright green
    | DG  // dark green
    | Cy  // cyan
    | LB  // light blue
    | DB  // dark blue
    | Pu  // purple
    | Ma  // magenta
    | Pi  // pink
    | Wh  // white
    | Gr  // grey
    | Bl  // black

  /** The two-letter code a colour is written as. */
  function Code(c: Color): (s: string)
    ensures |s| == 2
  {
    match c
    case Re => "Re"
    case Or => "Or"
    case Ye => "Ye"
    case LG => "LG"
    case BG => "BG"
    case DG => "DG"
    case Cy => "Cy"
    case LB => "LB"
    case DB => "DB"
    case Pu => "Pu"
    case Ma => "Ma"
    case Pi => "Pi"
    case Wh => "Wh"
    case Gr => "Gr"
    case Bl => "Bl"
  }

  /** The colour a string names, if it is one of the fifteen codes. */
  function Parse(s: string): (r: Option<Color>)
    ensures r.Some? ==> Code(r.value) == s
  {
    if s == "Re" then Some(Re)
    else if s == "Or" then Some(Or)
    else if s == "Ye" then Some(Ye)
    else if s == "LG" then Some(LG)
    else if s == "BG" then Some(BG)
    else if s == "DG" then Some(DG)
    else if s == "Cy" then Some(Cy)
    else if s == "LB" then Some(LB)
    else if s == "DB" then Some(DB)
    else if s == "Pu" then Some(Pu)
    else if s == "Ma" then Some(Ma)
    else if s == "Pi" then Some(Pi)
    else if s == "Wh" then Some(Wh)
    else if s == "Gr" then Some(Gr)
    else if s == "Bl" then Some(Bl)
    else None
  }

  /** Every code parses back to its colour, so codes are pairwise distinct. */
  lemma ParseCode(c: Color)
    ensures Parse(Code(c)) == Some(c)
  {
  }

  lemma CodeInjective(c: Color, d: Color)
    requires Code(c) == Code(d)
    ensures c == d
  {
    ParseCode(c);
    ParseCode(d);
  }

  /** Position of a colour's code in the ordering of Python strings by code
      point (upper-case letters before lower-case ones): BG < Bl < Cy < DB < DG
      < Gr < LB < LG < Ma < Or < Pi < Pu < Re < Wh < Ye. */
  function Rank(c: Color): (r: nat)
    ensures r < 15
  {
    match c
    case BG => 0
    case Bl => 1
    case Cy => 2
    case DB => 3
    case DG => 4
    case Gr => 5
    case LB => 6
    case LG => 7
    case Ma => 8
    case Or => 9
    case Pi => 10
    case Pu => 11
    case Re => 12
    case Wh => 13
    case Ye => 14
  }

  lemma RankInjective(c: Color, d: Color)
    requires Rank(c) == Rank(d)
    ensures c == d
  {
  }
}
