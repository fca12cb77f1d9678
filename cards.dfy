/** Cards of the game and the rule that decides which card may cover which. */
module Cards {

  datatype Option<+T> = None | Some(value: T)

  /** Rust's `u8`: the type of a number card's face value. */
  type U8 = x: int | 0 <= x < 0x100

  datatype Color = Red | Blue | Green | Yellow

  /** The colours in the order the deck generator walks them. */
  const COLORS: seq<Color> := [Red, Blue, Green, Yellow]

  datatype Action = Draw2 | Reverse | Skip

  /** The action kinds in the order the deck generator walks them. */
  const ACTIONS: seq<Action> := [Draw2, Reverse, Skip]

  datatype WildAction = ChangeColor | Draw4

  const WILD_ACTIONS: seq<WildAction> := [ChangeColor, Draw4]

  datatype Card =
    | Number(number: U8, color: Color)
    | ActionCard(action: Action, color: Color)
    | Wild(wildAction: WildAction)

  /** What a coloured card shows besides its colour: a number or an action. */
  datatype Face = NumberFace(n: U8) | ActionFace(a: Action)

  function FaceOf(c: Card): Face
    requires !c.Wild?
  {
    if c.Number? then NumberFace(c.number) else ActionFace(c.action)
  }

  /** The colour a card on top of the pile asks for: its own, or the colour bound by whoever played a wild. */
  function ColorToMatch(top: Card, wildColor: Option<Color>): Option<Color>
  {
    if top.Wild? then wildColor else Some(top.color)
  }

  /**
   * May `candidate` be placed on `top`? The source unwraps `wildColor` when a
   * coloured card is matched against a wild top, so a bound colour is required there.
   * The contract is the rule in one sentence: a wild card always goes; a coloured
   * card goes when it has the colour the top asks for, or when the top is coloured
   * and shows the same number or the same action.
   */
  function Accepts(top: Card, candidate: Card, wildColor: Option<Color>): (r: bool)
    requires top.Wild? && !candidate.Wild? ==> wildColor.Some?
    ensures candidate.Wild? ==> r
    ensures !candidate.Wild? ==>
      (r <==> ColorToMatch(top, wildColor) == Some(candidate.color)
              || (!top.Wild? && FaceOf(top) == FaceOf(candidate)))
  {
    match (top, candidate)
    case (Number(n, c), Number(on, oc)) => c == oc || n == on
    case (Number(_, c), ActionCard(_, oc)) => c == oc
    case (ActionCard(_, c), Number(_, oc)) => c == oc
    case (ActionCard(a, c), ActionCard(oa, oc)) => c == oc || a == oa
    case (_, Wild(_)) => true
    case (Wild(_), Number(_, oc)) => oc == wildColor.value
    case (Wild(_), ActionCard(_, oc)) => oc == wildColor.value
  }

  /** For two coloured cards the rule does not depend on which one is on top. */
  lemma AcceptsSymmetricOnColored(a: Card, b: Card, wildColor: Option<Color>)
    requires !a.Wild? && !b.Wild?
    ensures Accepts(a, b, wildColor) == Accepts(b, a, wildColor)
  {
  }

  /** A number card and an action card match only by colour, whichever is on top. */
  lemma NumberOnActionOnlyByColor(a: Card, b: Card, wildColor: Option<Color>)
    requires (a.Number? && b.ActionCard?) || (a.ActionCard? && b.Number?)
    ensures Accepts(a, b, wildColor) <==> a.color == b.color
  {
  }

  /** The consequence a card left on top forces on the next player while the state is hot. */
  function DrawPenalty(top: Card): (n: nat)
    ensures n in {0, 2, 4}
    ensures n == 2 <==> top.ActionCard? && top.action == Draw2
    ensures n == 4 <==> top == Wild(Draw4)
  {
    match top
    case ActionCard(Draw2, _) => 2
    case Wild(Draw4) => 4
    case _ => 0
  }

  predicate IsSkip(c: Card)
  {
    c.ActionCard? && c.action == Skip
  }

  predicate IsReverse(c: Card)
  {
    c.ActionCard? && c.action == Reverse
  }
}
