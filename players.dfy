/**
 * The players of the engine: the bot and its turn, and the initial deal. A bot
 * owns its hand (`deck` in the source), which its turn updates in place; the
 * draw and discard piles are passed in and handed back.
 */
module Players {
  import opened Cards
  import opened Shuffling
  import opened Piles

  /** Cards dealt to each player at the start. */
  const INITIAL_CARDS: U8 := 7

  /** What a turn reports to the game loop. */
  datatype PlayResult = Win | Place(wildColor: Option<Color>) | NoPlace | Starvation

  /** Everything a bot's turn decides: the result and the new piles, hand and direction. */
  datatype Turn = Turn(result: PlayResult, draw: seq<Card>, discard: seq<Card>, hand: seq<Card>, dir: int)

  /** A wild top with no colour bound to it cannot judge a coloured card; the source panics there. */
  predicate ColorBound(discard: seq<Card>, wildColor: Option<Color>)
  {
    |discard| >= 1 && (discard[|discard| - 1].Wild? ==> wildColor.Some?)
  }

  /** The positions in `hand` of the cards `top` accepts, in increasing order. */
  function LegalIndices(top: Card, hand: seq<Card>, wildColor: Option<Color>): (r: seq<nat>)
    requires top.Wild? ==> wildColor.Some?
    ensures |r| <= |hand|
    ensures forall k :: 0 <= k < |r| ==> r[k] < |hand|
  {
    if hand == [] then []
    else
      var init := LegalIndices(top, hand[..|hand| - 1], wildColor);
      if Accepts(top, hand[|hand| - 1], wildColor) then init + [|hand| - 1] else init
  }

  /**
   * The legal positions are exactly the positions of the accepted cards, each
   * listed once, in increasing order.
   */
  lemma {:induction false} LegalIndicesExact(top: Card, hand: seq<Card>, wildColor: Option<Color>)
    requires top.Wild? ==> wildColor.Some?
    ensures var r := LegalIndices(top, hand, wildColor);
      && (forall i :: i in r <==> 0 <= i < |hand| && Accepts(top, hand[i], wildColor))
      && (forall j, k :: 0 <= j < k < |r| ==> r[j] < r[k])
  {
    if hand != [] {
      LegalIndicesExact(top, hand[..|hand| - 1], wildColor);
      var init := LegalIndices(top, hand[..|hand| - 1], wildColor);
      forall i | 0 <= i < |hand| - 1
        ensures hand[..|hand| - 1][i] == hand[i]
      {
      }
    }
  }

  /**
   * Placing `hand[idx]` on the discard pile, the tail of every turn that plays a
   * card: the card leaves the hand and becomes the top, a Reverse turns the
   * direction round, a wild card binds the colour the bot names, and the bot wins
   * when that was its last card.
   */
  function Placed(hand: seq<Card>, idx: nat, draw: seq<Card>, discard: seq<Card>, dir: int, newColor: Color): (t: Turn)
    requires idx < |hand|
    ensures t.draw == draw && t.discard == discard + [hand[idx]]
    ensures |t.hand| == |hand| - 1 && multiset(t.hand) + multiset{hand[idx]} == multiset(hand)
    ensures t.result.Win? || t.result.Place?
    ensures t.result.Win? <==> |hand| == 1
    ensures t.dir == (if IsReverse(hand[idx]) then -dir else dir)
    ensures t.result.Place? ==> t.result.wildColor == (if hand[idx].Wild? then Some(newColor) else None)
  {
    var card := hand[idx];
    var rest := SwapRemove(hand, idx);
    var wildColor := if card.Wild? then Some(newColor) else None;
    Turn(if rest == [] then Win else Place(wildColor), draw, discard + [card], rest,
         if IsReverse(card) then -dir else dir)
  }

  /**
   * `t` placed a card: an accepted card now lies right on `top`, the direction is
   * reversed exactly when that card is a Reverse, the colour named by the bot is
   * bound exactly when it is wild, and the result is a win exactly when the hand is
   * empty.
   */
  predicate PlacedOn(t: Turn, top: Card, wildColor: Option<Color>, dir: int, newColor: Color)
    requires top.Wild? ==> wildColor.Some?
  {
    && (t.result.Win? || t.result.Place?)
    && |t.discard| >= 2 && t.discard[|t.discard| - 2] == top
    && var card := t.discard[|t.discard| - 1];
    && Accepts(top, card, wildColor)
    && t.dir == (if IsReverse(card) then -dir else dir)
    && (t.result.Win? <==> t.hand == [])
    && (t.result.Place? ==> t.result.wildColor == (if card.Wild? then Some(newColor) else None))
  }

  /** Placing a card the top accepts is a placement in the sense of `PlacedOn`. */
  lemma PlacedOnTop(hand: seq<Card>, idx: nat, draw: seq<Card>, discard: seq<Card>, dir: int,
                    newColor: Color, wildColor: Option<Color>)
    requires idx < |hand| && ColorBound(discard, wildColor)
    requires Accepts(discard[|discard| - 1], hand[idx], wildColor)
    ensures PlacedOn(Placed(hand, idx, draw, discard, dir, newColor), discard[|discard| - 1], wildColor, dir, newColor)
  {
    var t := Placed(hand, idx, draw, discard, dir, newColor);
    assert t.discard[|t.discard| - 1] == hand[idx];
  }

  /**
   * Drawing `n` cards and passing, or reporting starvation when the piles cannot
   * supply them: the drawn cards go behind the hand, the top stays, no card is
   * created or lost, and starvation leaves only the top on the table.
   */
  function Penalized(hand: seq<Card>, draw: seq<Card>, discard: seq<Card>, dir: int, order: seq<int>, n: nat): (t: Turn)
    requires |discard| >= 1
    ensures t.result == (if n > Available(draw, discard) then Starvation else NoPlace)
    ensures t.dir == dir
    ensures t.result == NoPlace ==> |t.hand| == |hand| + n && t.hand[..|hand|] == hand
    ensures t.result == Starvation ==> t.draw == [] && |t.discard| == 1
    ensures |t.discard| >= 1 && t.discard[|t.discard| - 1] == discard[|discard| - 1]
    ensures multiset(t.draw) + multiset(t.discard) + multiset(t.hand)
            == multiset(draw) + multiset(discard) + multiset(hand)
  {
    AfterTransferFacts(draw, discard, hand, order, n);
    var a := AfterTransfer(draw, discard, hand, order, n);
    Turn(if n > Available(draw, discard) then Starvation else NoPlace, a.draw, a.discard, a.deck, dir)
  }

  /** No card was created or lost between the piles and hand before and those of `t`. */
  predicate Conserved(t: Turn, draw: seq<Card>, discard: seq<Card>, hand: seq<Card>)
  {
    multiset(t.draw) + multiset(t.discard) + multiset(t.hand)
    == multiset(draw) + multiset(discard) + multiset(hand)
  }

  /**
   * What a turn does to the top of the discard pile: a turn that places nothing
   * leaves `top` on top and keeps the direction; a turn that places a card is a
   * placement on `top` in the sense of `PlacedOn`.
   */
  predicate TopAfter(t: Turn, top: Card, wildColor: Option<Color>, dir: int, newColor: Color)
    requires top.Wild? ==> wildColor.Some?
  {
    && ((t.result.NoPlace? || t.result.Starvation?) ==>
          |t.discard| >= 1 && t.discard[|t.discard| - 1] == top && t.dir == dir)
    && ((t.result.Win? || t.result.Place?) ==> PlacedOn(t, top, wildColor, dir, newColor))
  }

  /**
   * After any turn that started with a colour bound to a wild top, a wild top still
   * has one: a pass keeps the old binding and top, a placement of a wild card binds
   * the colour the bot names.
   */
  lemma TopAfterBindsColor(t: Turn, discard: seq<Card>, wildColor: Option<Color>, dir: int, newColor: Color)
    requires ColorBound(discard, wildColor)
    requires TopAfter(t, discard[|discard| - 1], wildColor, dir, newColor)
    ensures t.result.NoPlace? || t.result.Starvation? ==> ColorBound(t.discard, wildColor)
    ensures t.result.Place? ==> ColorBound(t.discard, t.result.wildColor)
    ensures t.dir == dir || t.dir == -dir
  {
  }

  /** A bot with no acceptable card draws one, and plays it if the top accepts it. */
  function DrawnTurn(hand: seq<Card>, draw: seq<Card>, discard: seq<Card>, dir: int,
                     wildColor: Option<Color>, newColor: Color, order: seq<int>): Turn
    requires ColorBound(discard, wildColor)
  {
    var p := Penalized(hand, draw, discard, dir, order, 1);
    if p.result == NoPlace && Accepts(discard[|discard| - 1], p.hand[|hand|], wildColor) then
      Placed(p.hand, |hand|, p.draw, p.discard, dir, newColor)
    else
      p
  }

  /**
   * Playing the card just drawn, which lies behind the old hand: the hand is as it
   * was before the draw, and the card lies on the old top.
   */
  lemma DrawnCardPlayed(hand: seq<Card>, p: Turn, draw: seq<Card>, discard: seq<Card>, dir: int,
                        wildColor: Option<Color>, newColor: Color)
    requires ColorBound(discard, wildColor) && Conserved(p, draw, discard, hand)
    requires |p.hand| == |hand| + 1 && p.hand[..|hand|] == hand
    requires |p.discard| >= 1 && p.discard[|p.discard| - 1] == discard[|discard| - 1]
    requires Accepts(discard[|discard| - 1], p.hand[|hand|], wildColor)
    ensures var t := Placed(p.hand, |hand|, p.draw, p.discard, dir, newColor);
      && Conserved(t, draw, discard, hand)
      && TopAfter(t, discard[|discard| - 1], wildColor, dir, newColor)
      && t.hand == hand
  {
    var c := p.hand[|hand|];
    PlacedOnTop(p.hand, |hand|, p.draw, p.discard, dir, newColor, wildColor);
    assert p.hand == hand + [c];
    assert SwapRemove(p.hand, |hand|) == hand;
    assert multiset(p.discard + [c]) == multiset(p.discard) + multiset{c};
  }

  /**
   * Drawing one card: starvation exactly when no card is available, otherwise the
   * drawn card is kept behind the hand, or played, leaving the hand as it was.
   */
  lemma DrawnTurnFacts(hand: seq<Card>, draw: seq<Card>, discard: seq<Card>, dir: int,
                       wildColor: Option<Color>, newColor: Color, order: seq<int>)
    requires ColorBound(discard, wildColor)
    ensures var t := DrawnTurn(hand, draw, discard, dir, wildColor, newColor, order);
      && Conserved(t, draw, discard, hand)
      && TopAfter(t, discard[|discard| - 1], wildColor, dir, newColor)
      && (t.result == Starvation <==> Available(draw, discard) == 0)
      && (t.result == Starvation ==> t.draw == [] && |t.discard| == 1)
      && (t.result == NoPlace ==> |t.hand| == |hand| + 1 && t.hand[..|hand|] == hand)
      && ((t.result.Win? || t.result.Place?) ==> t.hand == hand)
  {
    var top := discard[|discard| - 1];
    var t := DrawnTurn(hand, draw, discard, dir, wildColor, newColor, order);
    var p := Penalized(hand, draw, discard, dir, order, 1);
    if p.result == NoPlace && Accepts(top, p.hand[|hand|], wildColor) {
      assert t == Placed(p.hand, |hand|, p.draw, p.discard, dir, newColor);
      DrawnCardPlayed(hand, p, draw, discard, dir, wildColor, newColor);
    } else {
      assert t == p;
    }
  }

  /**
   * The turn of a bot that is not held back by a hot Skip, Draw2 or Draw4: it plays
   * the acceptable card `pick` selects, or draws.
   */
  function NormalTurn(hand: seq<Card>, draw: seq<Card>, discard: seq<Card>, dir: int,
                      wildColor: Option<Color>, pick: nat, newColor: Color, order: seq<int>): Turn
    requires ColorBound(discard, wildColor)
  {
    var legal := LegalIndices(discard[|discard| - 1], hand, wildColor);
    if |legal| > 0 then
      Placed(hand, legal[pick % |legal|], draw, discard, dir, newColor)
    else
      DrawnTurn(hand, draw, discard, dir, wildColor, newColor, order)
  }

  /**
   * A bot holding an acceptable card plays the one `pick` selects among them and
   * draws nothing; a bot holding none draws, as `DrawnTurnFacts` says.
   */
  lemma NormalTurnFacts(hand: seq<Card>, draw: seq<Card>, discard: seq<Card>, dir: int,
                        wildColor: Option<Color>, pick: nat, newColor: Color, order: seq<int>)
    requires ColorBound(discard, wildColor)
    ensures var t := NormalTurn(hand, draw, discard, dir, wildColor, pick, newColor, order);
      var top := discard[|discard| - 1];
      var legal := LegalIndices(top, hand, wildColor);
      && Conserved(t, draw, discard, hand)
      && TopAfter(t, top, wildColor, dir, newColor)
      && (t.result == Starvation ==> t.draw == [] && |t.discard| == 1)
      && ((exists i :: 0 <= i < |hand| && Accepts(top, hand[i], wildColor)) ==>
            && |legal| > 0
            && (t.result.Win? || t.result.Place?)
            && t.draw == draw
            && t.discard == discard + [hand[legal[pick % |legal|]]]
            && t.hand == SwapRemove(hand, legal[pick % |legal|]))
      && ((forall i :: 0 <= i < |hand| ==> !Accepts(top, hand[i], wildColor)) ==>
            t == DrawnTurn(hand, draw, discard, dir, wildColor, newColor, order))
  {
    var top := discard[|discard| - 1];
    var t := NormalTurn(hand, draw, discard, dir, wildColor, pick, newColor, order);
    var legal := LegalIndices(top, hand, wildColor);
    LegalIndicesExact(top, hand, wildColor);
    if |legal| > 0 {
      var i := legal[pick % |legal|];
      assert i in legal;
      assert t == Placed(hand, i, draw, discard, dir, newColor);
      PlacedOnTop(hand, i, draw, discard, dir, newColor, wildColor);
      assert multiset(discard + [hand[i]]) == multiset(discard) + multiset{hand[i]};
      assert exists i :: 0 <= i < |hand| && Accepts(top, hand[i], wildColor);
    } else {
      DrawnTurnFacts(hand, draw, discard, dir, wildColor, newColor, order);
      assert legal == [];
    }
  }

  /**
   * A bot's turn as a function of everything it depends on; the random choices are
   * `pick` (which acceptable card), `newColor` (the colour named after a wild) and
   * `order` (the shuffle of a recycled discard pile). While the state is hot, a
   * Skip on top makes the bot pass and a Draw2 or Draw4 makes it draw.
   */
  function BotTurn(hand: seq<Card>, draw: seq<Card>, discard: seq<Card>, dir: int, isHot: bool,
                   wildColor: Option<Color>, pick: nat, newColor: Color, order: seq<int>): Turn
    requires ColorBound(discard, wildColor)
  {
    var top := discard[|discard| - 1];
    if isHot && IsSkip(top) then
      Turn(NoPlace, draw, discard, hand, dir)
    else if isHot && DrawPenalty(top) > 0 then
      Penalized(hand, draw, discard, dir, order, DrawPenalty(top))
    else
      NormalTurn(hand, draw, discard, dir, wildColor, pick, newColor, order)
  }

  /**
   * Every turn neither creates nor loses a card, leaves the top in place or puts an
   * accepted card right on it (with the direction, the bound colour and the win
   * decided as `TopAfter` says).
   */
  lemma BotTurnFacts(hand: seq<Card>, draw: seq<Card>, discard: seq<Card>, dir: int, isHot: bool,
                     wildColor: Option<Color>, pick: nat, newColor: Color, order: seq<int>)
    requires ColorBound(discard, wildColor)
    ensures var t := BotTurn(hand, draw, discard, dir, isHot, wildColor, pick, newColor, order);
      && Conserved(t, draw, discard, hand)
      && TopAfter(t, discard[|discard| - 1], wildColor, dir, newColor)
      && (t.result == Starvation ==> t.draw == [] && |t.discard| == 1)
  {
    var top := discard[|discard| - 1];
    var t := BotTurn(hand, draw, discard, dir, isHot, wildColor, pick, newColor, order);
    if isHot && IsSkip(top) {
      assert t == Turn(NoPlace, draw, discard, hand, dir);
    } else if isHot && DrawPenalty(top) > 0 {
      assert t == Penalized(hand, draw, discard, dir, order, DrawPenalty(top));
    } else {
      assert t == NormalTurn(hand, draw, discard, dir, wildColor, pick, newColor, order);
      NormalTurnFacts(hand, draw, discard, dir, wildColor, pick, newColor, order);
    }
  }

  /**
   * While the state is hot, a Skip on top makes the bot pass untouched, and a Draw2
   * or Draw4 on top makes it draw two or four cards and pass, or report starvation
   * when the piles cannot supply them; with any other top the turn is a normal one.
   */
  lemma BotTurnHot(hand: seq<Card>, draw: seq<Card>, discard: seq<Card>, dir: int,
                   wildColor: Option<Color>, pick: nat, newColor: Color, order: seq<int>)
    requires ColorBound(discard, wildColor)
    ensures var t := BotTurn(hand, draw, discard, dir, true, wildColor, pick, newColor, order);
      var top := discard[|discard| - 1];
      && (IsSkip(top) ==> t == Turn(NoPlace, draw, discard, hand, dir))
      && (DrawPenalty(top) > 0 ==>
            && (t.result == NoPlace || t.result == Starvation)
            && (t.result == Starvation <==> DrawPenalty(top) > Available(draw, discard))
            && (t.result == NoPlace ==> |t.hand| == |hand| + DrawPenalty(top) && t.hand[..|hand|] == hand)
            && (t.result == Starvation ==> t.draw == [] && |t.discard| == 1))
      && (!IsSkip(top) && DrawPenalty(top) == 0 ==>
            t == NormalTurn(hand, draw, discard, dir, wildColor, pick, newColor, order))
  {
  }

  class Bot {
    /** The bot's hand. */
    var deck: seq<Card>

    constructor (deck: seq<Card>)
      ensures this.deck == deck
    {
      this.deck := deck;
    }

    /** The source's search loop: the positions of the cards in this hand that `top` accepts. */
    method LegalMoves(top: Card, wildColor: Option<Color>) returns (legal: seq<nat>)
      requires top.Wild? ==> wildColor.Some?
      ensures legal == LegalIndices(top, deck, wildColor)
    {
      legal := [];
      for idx := 0 to |deck|
        invariant legal == LegalIndices(top, deck[..idx], wildColor)
      {
        assert deck[..idx + 1][..idx] == deck[..idx];
        if Accepts(top, deck[idx], wildColor) {
          legal := legal + [idx];
        }
      }
      assert deck[..|deck|] == deck;
    }

    /**
     * The source's placing block: `swap_remove` the chosen card onto the discard
     * pile, turn the direction round for a Reverse, name `newColor` for a wild card,
     * and report a win when the hand is empty.
     */
    method PlaceCard(idx: nat, discard: seq<Card>, dir: int, newColor: Color)
      returns (r: PlayResult, discard': seq<Card>, dir': int)
      requires idx < |deck|
      modifies this
      ensures var t := Placed(old(deck), idx, [], discard, dir, newColor);
        r == t.result && discard' == t.discard && deck == t.hand && dir' == t.dir
    {
      var card := deck[idx];
      deck := SwapRemove(deck, idx);
      discard', dir' := discard + [card], dir;
      var newWildColor := None;
      match card {
        case ActionCard(action, _) =>
          if action == Reverse {
            dir' := -dir';
          }
        case Wild(_) =>
          newWildColor := Some(newColor);
        case _ =>
      }
      r := if |deck| == 0 then Win else Place(newWildColor);
    }

    /**
     * The source's `transfer_cards` call of a turn that draws `n` cards into this
     * hand: the outcome is `Penalized`, starvation when the piles run short.
     */
    method Penalize(draw: seq<Card>, discard: seq<Card>, dir: int, n: U8, order: seq<int>)
      returns (r: PlayResult, draw': seq<Card>, discard': seq<Card>)
      requires |discard| >= 1
      modifies this
      ensures Turn(r, draw', discard', deck, dir) == Penalized(old(deck), draw, discard, dir, order, n)
    {
      var starved;
      starved, draw', discard', deck := TransferCards(draw, discard, deck, n, order);
      r := if starved then Starvation else NoPlace;
    }

    /**
     * `Bot::play`: one turn of this bot. The source indexes the discard top, so the
     * discard pile must not be empty, and it unwraps the bound colour when a
     * coloured card meets a wild top. The whole outcome is `BotTurn`.
     */
    method Play(draw: seq<Card>, discard: seq<Card>, dir: int, isHot: bool, wildColor: Option<Color>,
                pick: nat, newColor: Color, order: seq<int>)
      returns (r: PlayResult, draw': seq<Card>, discard': seq<Card>, dir': int)
      requires ColorBound(discard, wildColor)
      modifies this
      ensures Turn(r, draw', discard', deck, dir')
              == BotTurn(old(deck), draw, discard, dir, isHot, wildColor, pick, newColor, order)
    {
      ghost var hand := deck;
      ghost var expected := BotTurn(hand, draw, discard, dir, isHot, wildColor, pick, newColor, order);
      draw', discard', dir' := draw, discard, dir;
      var top := discard[|discard| - 1];
      if isHot {
        match top {
          case ActionCard(Skip, _) =>
            return NoPlace, draw', discard', dir';
          case ActionCard(Draw2, _) =>
            r, draw', discard' := Penalize(draw', discard', dir, 2, order);
            return;
          case Wild(Draw4) =>
            r, draw', discard' := Penalize(draw', discard', dir, 4, order);
            return;
          case _ =>
        }
      }
      assert expected == NormalTurn(hand, draw, discard, dir, wildColor, pick, newColor, order);

      var legal := LegalMoves(top, wildColor);
      if |legal| > 0 {
        var chosen := legal[pick % |legal|];
        ghost var placed := Placed(deck, chosen, draw', discard', dir', newColor);
        assert expected == placed;
        r, discard', dir' := PlaceCard(chosen, discard', dir', newColor);
        assert Turn(r, draw', discard', deck, dir') == placed;
      } else {
        r, draw', discard', dir' := DrawAndPlay(draw', discard', dir', wildColor, newColor, order);
      }
    }

    /**
     * The source's path for a bot with no acceptable card: draw one card, and place
     * it when the top accepts it. The whole outcome is `DrawnTurn`.
     */
    method DrawAndPlay(draw: seq<Card>, discard: seq<Card>, dir: int, wildColor: Option<Color>,
                       newColor: Color, order: seq<int>)
      returns (r: PlayResult, draw': seq<Card>, discard': seq<Card>, dir': int)
      requires ColorBound(discard, wildColor)
      modifies this
      ensures Turn(r, draw', discard', deck, dir')
              == DrawnTurn(old(deck), draw, discard, dir, wildColor, newColor, order)
    {
      ghost var hand := deck;
      ghost var p := Penalized(hand, draw, discard, dir, order, 1);
      var top := discard[|discard| - 1];
      dir' := dir;
      r, draw', discard' := Penalize(draw, discard, dir, 1, order);
      if r == NoPlace && Accepts(discard'[|discard'| - 1], deck[|deck| - 1], wildColor) {
        assert |deck| == |hand| + 1 && discard'[|discard'| - 1] == top;
        ghost var placed := Placed(deck, |deck| - 1, draw', discard', dir', newColor);
        r, discard', dir' := PlaceCard(|deck| - 1, discard', dir', newColor);
        assert Turn(r, draw', discard', deck, dir') == placed;
      }
    }
  }

  /** The cards of several hands, counted together. */
  function Pooled(hands: seq<seq<Card>>): multiset<Card>
  {
    if hands == [] then multiset{} else Pooled(hands[..|hands| - 1]) + multiset(hands[|hands| - 1])
  }

  lemma PooledSnoc(hands: seq<seq<Card>>, hand: seq<Card>)
    ensures Pooled(hands + [hand]) == Pooled(hands) + multiset(hand)
  {
    assert (hands + [hand])[..|hands|] == hands;
  }

  /** Replacing one hand exchanges its cards in the pool and leaves the rest alone. */
  lemma {:induction false} PooledUpdate(hands: seq<seq<Card>>, i: nat, hand: seq<Card>)
    requires i < |hands|
    ensures Pooled(hands[i := hand]) + multiset(hands[i]) == Pooled(hands) + multiset(hand)
  {
    var last := |hands| - 1;
    var updated := hands[i := hand];
    assert Pooled(hands) == Pooled(hands[..last]) + multiset(hands[last]);
    assert Pooled(updated) == Pooled(updated[..last]) + multiset(updated[last]);
    if i == last {
      assert updated[..last] == hands[..last];
    } else {
      assert updated[..last] == hands[..last][i := hand];
      assert updated[last] == hands[last] && hands[..last][i] == hands[i];
      PooledUpdate(hands[..last], i, hand);
      calc {
        Pooled(updated) + multiset(hands[i]);
        (Pooled(hands[..last][i := hand]) + multiset(hands[i])) + multiset(hands[last]);
        (Pooled(hands[..last]) + multiset(hand)) + multiset(hands[last]);
        Pooled(hands) + multiset(hand);
      }
    }
  }

  /**
   * One pass of the deal, seen from outside: the cards of `hand` came off the
   * piles, the discard top stayed, and with seven cards on the draw pile the hand is
   * the seven popped off its end, the discard pile untouched.
   */
  ghost predicate DealtHand(draw: seq<Card>, discard: seq<Card>, hand: seq<Card>, draw': seq<Card>, discard': seq<Card>)
  {
    && multiset(draw') + multiset(discard') + multiset(hand) == multiset(draw) + multiset(discard)
    && (|discard| >= 1 ==> |discard'| >= 1 && discard'[|discard'| - 1] == discard[|discard| - 1])
    && (INITIAL_CARDS <= |draw| ==>
          draw' == draw[..|draw| - INITIAL_CARDS] && discard' == discard && hand == Popped(draw, INITIAL_CARDS))
  }

  /**
   * One pass of the deal: a fresh hand receives `INITIAL_CARDS` cards through
   * `transfer_cards`, whose starvation result the source ignores.
   */
  method DealHand(draw: seq<Card>, discard: seq<Card>, order: seq<int>)
    returns (hand: seq<Card>, draw': seq<Card>, discard': seq<Card>)
    requires |discard| >= 1 || INITIAL_CARDS <= |draw|
    ensures DealtHand(draw, discard, hand, draw', discard')
  {
    var starved;
    starved, draw', discard', hand := TransferCards(draw, discard, [], INITIAL_CARDS, order);
    AfterTransferFacts(draw, discard, [], order, INITIAL_CARDS);
    if INITIAL_CARDS <= |draw| {
      AfterTransferFromDraw(draw, discard, [], order, INITIAL_CARDS);
    }
  }

  /** A pass of the deal for a bot: its hand is dealt as `DealHand` says, and the bot is new. */
  method SeatBot(draw: seq<Card>, discard: seq<Card>, order: seq<int>)
    returns (bot: Bot, draw': seq<Card>, discard': seq<Card>)
    requires |discard| >= 1 || INITIAL_CARDS <= |draw|
    ensures fresh(bot) && DealtHand(draw, discard, bot.deck, draw', discard')
  {
    var deck;
    deck, draw', discard' := DealHand(draw, discard, order);
    bot := new Bot(deck);
  }

  /**
   * `hands` are dealt from the end of `draw` in order: the hand at `k` is the
   * `k + 1`-th run of seven cards popped off.
   */
  ghost predicate DealtInOrder(draw: seq<Card>, hands: seq<seq<Card>>)
  {
    forall k :: 0 <= k < |hands| ==>
      INITIAL_CARDS * (k + 1) <= |draw| &&
      hands[k] == Popped(draw[..|draw| - INITIAL_CARDS * k], INITIAL_CARDS)
  }

  /**
   * The piles `draw'` and `discard'` and the hands `hands` after dealing from
   * `draw` and `discard`: no card created or lost, the discard top kept, and, when
   * the draw pile held enough (`enough`), the hands popped in order off its end.
   */
  ghost predicate Dealing(draw: seq<Card>, discard: seq<Card>, draw': seq<Card>, discard': seq<Card>,
                          hands: seq<seq<Card>>, enough: bool)
  {
    && multiset(draw') + multiset(discard') + Pooled(hands) == multiset(draw) + multiset(discard)
    && (|discard| >= 1 ==> |discard'| >= 1 && discard'[|discard'| - 1] == discard[|discard| - 1])
    && (enough ==>
          && INITIAL_CARDS * |hands| <= |draw|
          && draw' == draw[..|draw| - INITIAL_CARDS * |hands|]
          && discard' == discard
          && DealtInOrder(draw, hands))
  }

  /** Dealing one more hand extends the deal. */
  lemma DealingStep(draw: seq<Card>, discard: seq<Card>, draw0: seq<Card>, discard0: seq<Card>,
                    hands: seq<seq<Card>>, enough: bool, hand: seq<Card>, draw': seq<Card>, discard': seq<Card>)
    requires Dealing(draw, discard, draw0, discard0, hands, enough)
    requires DealtHand(draw0, discard0, hand, draw', discard')
    requires enough ==> INITIAL_CARDS * (|hands| + 1) <= |draw|
    ensures Dealing(draw, discard, draw', discard', hands + [hand], enough)
  {
    PooledSnoc(hands, hand);
    assert multiset(draw') + multiset(discard') + Pooled(hands + [hand])
           == multiset(draw') + multiset(discard') + multiset(hand) + Pooled(hands);
    if enough {
      assert draw0[..|draw0| - INITIAL_CARDS] == draw[..|draw| - INITIAL_CARDS * (|hands| + 1)];
      assert forall k :: 0 <= k < |hands| ==> (hands + [hand])[k] == hands[k];
    }
  }

  /**
   * The passes of the deal for the bots: each of `botCount` new bots receives its
   * hand as `DealHand` says; with enough cards on the draw pile the hands are the
   * next runs of seven popped cards, in order.
   */
  method SeatBots(botCount: U8, draw: seq<Card>, discard: seq<Card>, order: seq<int>)
    returns (players: seq<Bot>, draw': seq<Card>, discard': seq<Card>, ghost hands: seq<seq<Card>>)
    requires |discard| >= 1 || INITIAL_CARDS * botCount <= |draw|
    ensures |players| == |hands| == botCount
    ensures forall p :: p in players ==> fresh(p)
    ensures forall j, k :: 0 <= j < k < |players| ==> players[j] != players[k]
    ensures forall k :: 0 <= k < |players| ==> players[k].deck == hands[k]
    ensures Dealing(draw, discard, draw', discard', hands, INITIAL_CARDS * botCount <= |draw|)
  {
    ghost var enough := INITIAL_CARDS * botCount <= |draw|;
    players, hands, draw', discard' := [], [], draw, discard;
    assert draw[..|draw| - INITIAL_CARDS * 0] == draw;
    for i := 0 to botCount
      invariant |players| == |hands| == i
      invariant forall p :: p in players ==> fresh(p)
      invariant forall j, k :: 0 <= j < k < |players| ==> players[j] != players[k]
      invariant forall k :: 0 <= k < |players| ==> players[k].deck == hands[k]
      invariant Dealing(draw, discard, draw', discard', hands, enough)
    {
      ghost var draw0, discard0 := draw', discard';
      var bot;
      bot, draw', discard' := SeatBot(draw', discard', order);
      DealingStep(draw, discard, draw0, discard0, hands, enough, bot.deck, draw', discard');
      players, hands := players + [bot], hands + [bot.deck];
    }
  }

  /**
   * `init_players`: deals seven cards to the human (whose hand the source then
   * drops, as the human player is disabled) and seven to each of `botCount` bots.
   * The transfers' starvation results are ignored, as in the source; the source
   * underflows when it must recycle an empty discard pile, hence the precondition.
   * With enough cards on the draw pile, the human's hand is the first seven popped
   * cards and the bots' hands are the next runs of seven, in order.
   */
  method InitPlayers(botCount: U8, draw: seq<Card>, discard: seq<Card>, order: seq<int>)
    returns (players: seq<Bot>, draw': seq<Card>, discard': seq<Card>,
             ghost hands: seq<seq<Card>>, ghost humanHand: seq<Card>)
    requires |discard| >= 1 || INITIAL_CARDS * (botCount + 1) <= |draw|
    ensures |players| == |hands| == botCount
    ensures forall p :: p in players ==> fresh(p)
    ensures forall j, k :: 0 <= j < k < |players| ==> players[j] != players[k]
    ensures forall k :: 0 <= k < |players| ==> players[k].deck == hands[k]
    ensures multiset(draw') + multiset(discard') + multiset(humanHand) + Pooled(hands)
            == multiset(draw) + multiset(discard)
    ensures |discard| >= 1 ==> |discard'| >= 1 && discard'[|discard'| - 1] == discard[|discard| - 1]
    ensures INITIAL_CARDS * (botCount + 1) <= |draw| ==>
      && draw' == draw[..|draw| - INITIAL_CARDS * (botCount + 1)]
      && discard' == discard
      && humanHand == Popped(draw, INITIAL_CARDS)
      && DealtInOrder(draw[..|draw| - INITIAL_CARDS], hands)
  {
    // The source's loop runs for i in 0..=botCount and keeps hand 0 aside; its first
    // pass is written out here before the passes for the bots.
    ghost var enough := INITIAL_CARDS * (botCount + 1) <= |draw|;
    var draw0, discard0;
    humanHand, draw0, discard0 := DealHand(draw, discard, order);
    players, draw', discard', hands := SeatBots(botCount, draw0, discard0, order);
    if enough {
      assert draw0[..|draw0| - INITIAL_CARDS * botCount] == draw[..|draw| - INITIAL_CARDS * (botCount + 1)];
    }
    assert multiset(draw') + multiset(discard') + multiset(humanHand) + Pooled(hands)
           == multiset(draw0) + multiset(discard0) + multiset(humanHand);
  }
}
