/**
 * The game loop: the deck is built, the hands are dealt, the discard pile is
 * seeded, and the bots take turns until one wins or the cards run out. Every
 * random choice of the source is an input: the deck's shuffle, the reshuffles
 * that seed the discard pile, and one `Roll` per turn.
 */
module Game {
  import opened Cards
  import opened Shuffling
  import opened Piles
  import opened Players

  /** The largest number of bots the game accepts. */
  const MAX_BOTS: U8 := 9

  /** The random choices of one turn: which acceptable card, which colour after a wild, which shuffle. */
  datatype Roll = Roll(pick: nat, color: Color, order: seq<int>)

  /** How a game ends: a bot wins, the cards run out, or the supplied randomness runs out first. */
  datatype Outcome = Won(winner: nat) | Starved | Unfinished

  /**
   * The index of the player after `cur` in direction `dir`. The source adds the
   * player count to `dir` and converts the sum to an unsigned index before taking
   * the remainder; the direction is always 1 or -1, so that sum is never negative.
   */
  function NextIndex(cur: nat, dir: int, n: nat): (r: nat)
    requires cur < n && (dir == 1 || dir == -1)
    ensures r < n
    ensures r == (cur + dir) % n
    ensures dir == 1 ==> r == (if cur == n - 1 then 0 else cur + 1)
    ensures dir == -1 ==> r == (if cur == 0 then n - 1 else cur - 1)
  {
    ModuloOfRange(cur + dir, n);
    ModuloOfRange(cur + (n + dir), n);
    (cur + (n + dir)) % n
  }

  /** The remainder of a number between minus the modulus and twice the modulus, written out. */
  lemma ModuloOfRange(x: int, n: int)
    requires 0 < n && -n <= x <= 2 * n
    ensures x % n == (if x < 0 then x + n else if x < n then x else if x < 2 * n then x - n else 0)
  {
  }

  /** The bots' hands are mirrored by `hands`, and no bot appears twice. */
  ghost predicate Seated(players: seq<Bot>, hands: seq<seq<Card>>)
    reads set p | p in players
  {
    && |players| == |hands|
    && (forall j, k :: 0 <= j < k < |players| ==> players[j] != players[k])
    && (forall k :: 0 <= k < |players| ==> players[k].deck == hands[k])
  }

  /**
   * What one bot turn does to the game state as a whole: the cards on the table and
   * in the bots' hands stay the same cards, the direction stays 1 or -1, and a wild
   * top always has a colour bound to it afterwards (the one just named after a
   * placement, the one before after a pass).
   */
  lemma TurnKeepsGame(hands: seq<seq<Card>>, cur: nat, draw: seq<Card>, discard: seq<Card>, dir: int,
                      isHot: bool, wildColor: Option<Color>, roll: Roll)
    requires cur < |hands| && ColorBound(discard, wildColor) && (dir == 1 || dir == -1)
    ensures var t := BotTurn(hands[cur], draw, discard, dir, isHot, wildColor, roll.pick, roll.color, roll.order);
      && multiset(t.draw) + multiset(t.discard) + Pooled(hands[cur := t.hand])
         == multiset(draw) + multiset(discard) + Pooled(hands)
      && (t.dir == 1 || t.dir == -1)
      && (t.result.NoPlace? ==> ColorBound(t.discard, wildColor))
      && (t.result.Place? ==> ColorBound(t.discard, t.result.wildColor))
      && (t.result.Win? ==> t.hand == [])
      && (t.result.Starvation? ==> t.draw == [] && |t.discard| == 1)
  {
    var t := BotTurn(hands[cur], draw, discard, dir, isHot, wildColor, roll.pick, roll.color, roll.order);
    BotTurnFacts(hands[cur], draw, discard, dir, isHot, wildColor, roll.pick, roll.color, roll.order);
    TopAfterBindsColor(t, discard, wildColor, dir, roll.color);
    PooledUpdate(hands, cur, t.hand);
    assert Conserved(t, draw, discard, hands[cur]);
    Exchange(multiset(t.draw) + multiset(t.discard), multiset(draw) + multiset(discard),
             Pooled(hands[cur := t.hand]), Pooled(hands), t.hand, hands[cur]);
  }

  /** Cards moved between a hand and the rest of the game: what leaves one side arrives on the other. */
  lemma Exchange<T>(table': multiset<T>, table: multiset<T>, pool': multiset<T>, pool: multiset<T>,
                    hand': seq<T>, hand: seq<T>)
    requires table' + multiset(hand') == table + multiset(hand)
    requires pool' + multiset(hand) == pool + multiset(hand')
    ensures table' + pool' == table + pool
  {
    assert forall x :: (table' + pool')[x] == (table + pool)[x] by {
      forall x
        ensures (table' + pool')[x] == (table + pool)[x]
      {
        assert (table' + multiset(hand'))[x] == (table + multiset(hand))[x];
        assert (pool' + multiset(hand))[x] == (pool + multiset(hand'))[x];
      }
    }
  }

  /** The state the turn loop of `start` carries from one turn to the next. */
  datatype GameState = GameState(hands: seq<seq<Card>>, draw: seq<Card>, discard: seq<Card>,
                                 dir: int, isHot: bool, wildColor: Option<Color>, cur: nat)

  /** A state the loop can take a turn in: a seated bot, a colour bound to a wild top, a direction of 1 or -1. */
  predicate Playable(s: GameState)
  {
    s.cur < |s.hands| && ColorBound(s.discard, s.wildColor) && (s.dir == 1 || s.dir == -1)
  }

  /**
   * One pass of the loop of `start`: the bot at `cur` takes its turn; a placement
   * makes the state hot and binds the colour it names (none for a coloured card), a
   * pass makes it cold, and either way the turn moves on in the new direction; a win
   * or starvation stops at the bot that caused it. Cards are conserved, and a state
   * the loop goes on with is again playable.
   */
  function Step(s: GameState, roll: Roll): (r: (PlayResult, GameState))
    requires Playable(s)
    ensures |r.1.hands| == |s.hands| && r.1.cur < |r.1.hands| && (r.1.dir == 1 || r.1.dir == -1)
    ensures multiset(r.1.draw) + multiset(r.1.discard) + Pooled(r.1.hands)
            == multiset(s.draw) + multiset(s.discard) + Pooled(s.hands)
    ensures (r.0.Place? || r.0.NoPlace?) ==> Playable(r.1)
    ensures r.0.Win? ==> r.1.cur == s.cur && r.1.hands[s.cur] == []
    ensures r.0.Starvation? ==> r.1.cur == s.cur && r.1.draw == [] && |r.1.discard| == 1
  {
    TurnKeepsGame(s.hands, s.cur, s.draw, s.discard, s.dir, s.isHot, s.wildColor, roll);
    var t := BotTurn(s.hands[s.cur], s.draw, s.discard, s.dir, s.isHot, s.wildColor, roll.pick, roll.color, roll.order);
    var hands := s.hands[s.cur := t.hand];
    match t.result
    case Place(newWildColor) =>
      (t.result, GameState(hands, t.draw, t.discard, t.dir, true, newWildColor, NextIndex(s.cur, t.dir, |hands|)))
    case NoPlace =>
      (t.result, GameState(hands, t.draw, t.discard, t.dir, false, s.wildColor, NextIndex(s.cur, t.dir, |hands|)))
    case _ =>
      (t.result, GameState(hands, t.draw, t.discard, t.dir, s.isHot, s.wildColor, s.cur))
  }

  /** The loop of `start` run for at most `|rolls|` turns, one roll per turn: how it ends and the state it ends in. */
  function Run(s: GameState, rolls: seq<Roll>): (Outcome, GameState)
    requires Playable(s)
    decreases |rolls|
  {
    if rolls == [] then (Unfinished, s)
    else
      var step := Step(s, rolls[0]);
      if step.0.Win? then (Won(s.cur), step.1)
      else if step.0.Starvation? then (Starved, step.1)
      else Run(step.1, rolls[1..])
  }

  /**
   * However many turns are played: the cards on the table and in the bots' hands
   * stay the same cards, the bots and the direction stay valid, a game still going
   * is playable (a wild top has its colour), a win is the current bot's with an
   * empty hand, and starvation leaves an empty draw pile and a lone discard top.
   */
  lemma {:induction false} RunKeepsGame(s: GameState, rolls: seq<Roll>)
    requires Playable(s)
    ensures var r := Run(s, rolls);
      var f := r.1;
      && |f.hands| == |s.hands| && f.cur < |f.hands| && (f.dir == 1 || f.dir == -1)
      && multiset(f.draw) + multiset(f.discard) + Pooled(f.hands)
         == multiset(s.draw) + multiset(s.discard) + Pooled(s.hands)
      && (r.0.Unfinished? ==> Playable(f))
      && (r.0.Won? ==> r.0.winner == f.cur && f.hands[f.cur] == [])
      && (r.0.Starved? ==> f.draw == [] && |f.discard| == 1)
    decreases |rolls|
  {
    if rolls != [] {
      var step := Step(s, rolls[0]);
      if !step.0.Win? && !step.0.Starvation? {
        RunKeepsGame(step.1, rolls[1..]);
      }
    }
  }

  /**
   * A Skip left hot on top makes the bot pass with nothing changed but the state,
   * which cools, and the turn, which moves on: the Skip's whole effect.
   */
  lemma HotSkipPasses(s: GameState, roll: Roll)
    requires Playable(s) && s.isHot && IsSkip(s.discard[|s.discard| - 1])
    ensures Step(s, roll) == (NoPlace, s.(isHot := false, cur := NextIndex(s.cur, s.dir, |s.hands|)))
  {
    var t := BotTurn(s.hands[s.cur], s.draw, s.discard, s.dir, s.isHot, s.wildColor, roll.pick, roll.color, roll.order);
    assert t == Turn(NoPlace, s.draw, s.discard, s.hands[s.cur], s.dir);
    assert s.hands[s.cur := t.hand] == s.hands;
  }

  /**
   * The opening turn: the state starts hot, so the first bot honours the seeded
   * card; a seeded Draw2 makes it draw two cards (or starve) and pass.
   */
  lemma OpeningDraw2(hands: seq<seq<Card>>, draw: seq<Card>, c: Color, roll: Roll)
    requires |hands| >= 1
    ensures var s := GameState(hands, draw, [ActionCard(Draw2, c)], 1, true, None, 0);
      && Playable(s)
      && Step(s, roll).0 == (if 2 > |draw| then Starvation else NoPlace)
      && (2 <= |draw| ==> Step(s, roll).1.hands[0] == hands[0] + Popped(draw, 2))
  {
    var s := GameState(hands, draw, [ActionCard(Draw2, c)], 1, true, None, 0);
    var t := BotTurn(hands[0], draw, s.discard, 1, true, None, roll.pick, roll.color, roll.order);
    assert t == Penalized(hands[0], draw, s.discard, 1, roll.order, 2);
    if 2 <= |draw| {
      AfterTransferFromDraw(draw, s.discard, hands[0], roll.order, 2);
    }
  }

  /**
   * One pass of the turn loop for the bot at `cur`: it plays as `BotTurn` says, and
   * the mirror of the hands follows its new hand; the game-wide facts of
   * `TurnKeepsGame` carry over to the new state.
   */
  method TakeTurn(players: seq<Bot>, cur: nat, ghost hands: seq<seq<Card>>, draw: seq<Card>, discard: seq<Card>,
                  dir: int, isHot: bool, wildColor: Option<Color>, roll: Roll)
    returns (result: PlayResult, draw': seq<Card>, discard': seq<Card>, dir': int, ghost hands': seq<seq<Card>>)
    requires cur < |players| && Seated(players, hands)
    requires ColorBound(discard, wildColor) && (dir == 1 || dir == -1)
    modifies players[cur]
    ensures Seated(players, hands') && hands' == hands[cur := players[cur].deck]
    ensures Turn(result, draw', discard', players[cur].deck, dir')
            == BotTurn(hands[cur], draw, discard, dir, isHot, wildColor, roll.pick, roll.color, roll.order)
    ensures multiset(draw') + multiset(discard') + Pooled(hands')
            == multiset(draw) + multiset(discard) + Pooled(hands)
    ensures dir' == 1 || dir' == -1
    ensures result.NoPlace? ==> ColorBound(discard', wildColor)
    ensures result.Place? ==> ColorBound(discard', result.wildColor)
    ensures result.Win? ==> players[cur].deck == []
    ensures result.Starvation? ==> draw' == [] && |discard'| == 1
  {
    var bot := players[cur];
    ghost var t := BotTurn(hands[cur], draw, discard, dir, isHot, wildColor, roll.pick, roll.color, roll.order);
    TurnKeepsGame(hands, cur, draw, discard, dir, isHot, wildColor, roll);
    result, draw', discard', dir' := bot.Play(draw, discard, dir, isHot, wildColor, roll.pick, roll.color, roll.order);
    assert t == Turn(result, draw', discard', bot.deck, dir');
    hands' := hands[cur := bot.deck];
  }

  /**
   * The deal of `start` from the shuffle choices `deckOrder`: the draw pile is the
   * fresh deck shuffled by them, the human's hand is the first seven cards popped off
   * its end, each bot's hand the next run of seven in turn, and the rest stays on
   * the draw pile.
   */
  ghost predicate DealtFrom(botCount: nat, deckOrder: seq<int>, deck: seq<Card>, draw: seq<Card>,
                            hands: seq<seq<Card>>, humanHand: seq<Card>)
  {
    && deck == Shuffle(FreshDeck(), deckOrder)
    && |deck| == 108 && INITIAL_CARDS * (botCount + 1) <= |deck|
    && |hands| == botCount
    && humanHand == Popped(deck, INITIAL_CARDS)
    && DealtInOrder(deck[..|deck| - INITIAL_CARDS], hands)
    && draw == deck[..|deck| - INITIAL_CARDS * (botCount + 1)]
  }

  /**
   * The seeding of the discard pile from the dealt draw pile `dealt`: `tries` of the
   * reshuffles, each made while a wild card was last; the discard pile is seeded
   * (`ok`) exactly when the last card is then not wild, with that card, the rest
   * staying on the draw pile; otherwise the reshuffles ran out.
   */
  ghost predicate SeededFrom(reshuffles: seq<seq<int>>, dealt: seq<Card>, tries: nat, ok: bool,
                             draw: seq<Card>, discard: seq<Card>)
  {
    && |dealt| >= 1 && tries <= |reshuffles|
    && WildOnTopThrough(dealt, reshuffles, tries)
    && var s := Reshuffled(dealt, reshuffles, tries);
    && ok == !s[|s| - 1].Wild?
    && (ok ==> discard == [s[|s| - 1]] && draw == s[..|s| - 1])
    && (!ok ==> tries == |reshuffles| && discard == [] && draw == s)
  }

  /** The whole opening of `start`: the deal as `DealtFrom` says, then the seeding. */
  ghost predicate SetUpFrom(botCount: nat, deckOrder: seq<int>, reshuffles: seq<seq<int>>,
                            deck: seq<Card>, dealt: seq<Card>, tries: nat, ok: bool,
                            draw: seq<Card>, discard: seq<Card>, hands: seq<seq<Card>>, humanHand: seq<Card>)
  {
    DealtFrom(botCount, deckOrder, deck, dealt, hands, humanHand)
      && SeededFrom(reshuffles, dealt, tries, ok, draw, discard)
  }

  /**
   * The first part of the opening of `start`: a shuffled 108-card deck, then seven
   * cards dealt to the human's hand and seven to each bot, all from the draw pile,
   * which holds enough cards that the still empty discard pile is never recycled
   * (so the shuffle choices `dealOrder` of the transfers are never used).
   */
  method Deal(botCount: U8, deckOrder: seq<int>, dealOrder: seq<int>)
    returns (players: seq<Bot>, draw: seq<Card>, discard: seq<Card>,
             ghost hands: seq<seq<Card>>, ghost humanHand: seq<Card>, ghost deck: seq<Card>)
    requires 1 <= botCount <= MAX_BOTS
    ensures |players| == botCount && Seated(players, hands)
    ensures forall p :: p in players ==> fresh(p)
    ensures DealtFrom(botCount, deckOrder, deck, draw, hands, humanHand) && discard == []
    ensures FullSet(multiset(draw) + multiset(discard) + multiset(humanHand) + Pooled(hands))
    ensures |draw| == 108 - INITIAL_CARDS * (botCount + 1)
    ensures |humanHand| == INITIAL_CARDS && forall k :: 0 <= k < |hands| ==> |hands[k]| == INITIAL_CARDS
  {
    var pile := GenDrawPile(deckOrder);
    deck := pile;
    players, draw, discard, hands, humanHand := InitPlayers(botCount, pile, [], dealOrder);
  }

  /**
   * The opening of `start`: the deal, then a discard pile seeded with one card that
   * is not wild, or a report that the reshuffles ran out first; what it produces is
   * exactly what `SetUpFrom` says of the inputs.
   */
  method Setup(botCount: U8, deckOrder: seq<int>, dealOrder: seq<int>, reshuffles: seq<seq<int>>)
    returns (ok: bool, players: seq<Bot>, draw: seq<Card>, discard: seq<Card>,
             ghost hands: seq<seq<Card>>, ghost humanHand: seq<Card>,
             ghost deck: seq<Card>, ghost dealt: seq<Card>, ghost tries: nat)
    requires 1 <= botCount <= MAX_BOTS
    ensures |players| == botCount && Seated(players, hands)
    ensures forall p :: p in players ==> fresh(p)
    ensures SetUpFrom(botCount, deckOrder, reshuffles, deck, dealt, tries, ok, draw, discard, hands, humanHand)
    ensures FullSet(multiset(draw) + multiset(discard) + Pooled(hands) + multiset(humanHand))
    ensures |humanHand| == INITIAL_CARDS && forall k :: 0 <= k < |hands| ==> |hands[k]| == INITIAL_CARDS
    ensures ok ==> |discard| == 1 && !discard[0].Wild?
    ensures ok ==> |draw| == 108 - INITIAL_CARDS * (botCount + 1) - 1
  {
    var pile, empty;
    players, pile, empty, hands, humanHand, deck := Deal(botCount, deckOrder, dealOrder);
    dealt := pile;
    ok, draw, discard, tries := SeedDiscardPile(pile, reshuffles);
    Regroup(multiset(dealt), multiset(empty), multiset(draw), multiset(discard),
            multiset(humanHand), Pooled(hands), multiset(dealt) + multiset(empty) + multiset(humanHand) + Pooled(hands));
    SetUpSizes(botCount, reshuffles, dealt, tries, ok, draw, discard);
  }

  /**
   * The second part of the opening of `start`: the discard pile, still empty, is
   * seeded from the dealt draw pile as `SeededFrom` says, and no card is lost.
   */
  method SeedDiscardPile(dealt: seq<Card>, reshuffles: seq<seq<int>>)
    returns (ok: bool, draw: seq<Card>, discard: seq<Card>, ghost tries: nat)
    requires |dealt| >= 1
    ensures SeededFrom(reshuffles, dealt, tries, ok, draw, discard)
    ensures multiset(draw) + multiset(discard) == multiset(dealt)
  {
    ok, discard, draw, tries := InitDiscardPile([], dealt, reshuffles);
    assert [] + discard == discard;
  }

  /** A seeded discard pile is one non-wild card, and the draw pile keeps the rest of the deal. */
  lemma SetUpSizes(botCount: nat, reshuffles: seq<seq<int>>, dealt: seq<Card>, tries: nat, ok: bool,
                   draw: seq<Card>, discard: seq<Card>)
    requires SeededFrom(reshuffles, dealt, tries, ok, draw, discard)
    requires |dealt| == 108 - INITIAL_CARDS * (botCount + 1)
    ensures ok ==> |discard| == 1 && !discard[0].Wild?
    ensures ok ==> |draw| == 108 - INITIAL_CARDS * (botCount + 1) - 1
  {
    var s := Reshuffled(dealt, reshuffles, tries);
    assert |s| == |dealt|;
  }

  /** Cards moved between the two piles leave the total, hands included, unchanged. */
  lemma Regroup<T>(draw: multiset<T>, discard: multiset<T>, draw': multiset<T>, discard': multiset<T>,
                   human: multiset<T>, pool: multiset<T>, total: multiset<T>)
    requires draw' + discard' == draw + discard
    requires draw + discard + human + pool == total
    ensures draw' + discard' + pool + human == total
  {
  }

  /**
   * The loop of `start` from a playable state whose direction is 1, hot, with no
   * colour bound and the first bot to play: each pass lets the bot at `cur` play,
   * makes the state hot and binds the named colour after a placement, cools it after
   * a pass, and moves on in the current direction; a win or starvation stops the loop
   * at the bot that caused it. The run is exactly `Run` over the rolls.
   */
  method TurnLoop(players: seq<Bot>, ghost hands: seq<seq<Card>>, draw: seq<Card>, discard: seq<Card>, rolls: seq<Roll>)
    returns (outcome: Outcome, draw': seq<Card>, discard': seq<Card>, cur: nat, ghost hands': seq<seq<Card>>)
    requires Seated(players, hands) && Playable(GameState(hands, draw, discard, 1, true, None, 0))
    modifies set p | p in players
    ensures Seated(players, hands')
    ensures var r := Run(GameState(hands, draw, discard, 1, true, None, 0), rolls);
      outcome == r.0 && hands' == r.1.hands && draw' == r.1.draw && discard' == r.1.discard && cur == r.1.cur
  {
    ghost var opening := GameState(hands, draw, discard, 1, true, None, 0);
    draw', discard', hands' := draw, discard, hands;
    cur := 0;
    var n := |players|;
    var dir := 1;
    var isHot := true;
    var wildColor: Option<Color> := None;

    var turn := 0;
    while turn < |rolls|
      invariant turn <= |rolls|
      invariant n == |players| && Seated(players, hands')
      invariant Playable(GameState(hands', draw', discard', dir, isHot, wildColor, cur))
      invariant Run(opening, rolls) == Run(GameState(hands', draw', discard', dir, isHot, wildColor, cur), rolls[turn..])
    {
      ghost var before := GameState(hands', draw', discard', dir, isHot, wildColor, cur);
      assert rolls[turn..][0] == rolls[turn] && rolls[turn..][1..] == rolls[turn + 1..];
      var result;
      assert players[cur] in players;
      result, draw', discard', dir, hands' := TakeTurn(players, cur, hands', draw', discard', dir, isHot, wildColor, rolls[turn]);
      match result {
        case Place(newWildColor) =>
          isHot := true;
          wildColor := newWildColor;
        case NoPlace =>
          isHot := false;
        case Win =>
          assert Step(before, rolls[turn]) == (result, GameState(hands', draw', discard', dir, isHot, wildColor, cur));
          return Won(cur), draw', discard', cur, hands';
        case Starvation =>
          assert Step(before, rolls[turn]) == (result, GameState(hands', draw', discard', dir, isHot, wildColor, cur));
          return Starved, draw', discard', cur, hands';
      }
      cur := NextIndex(cur, dir, n);
      assert Step(before, rolls[turn]) == (result, GameState(hands', draw', discard', dir, isHot, wildColor, cur));
      turn := turn + 1;
    }
    assert rolls[turn..] == [];
    outcome := Unfinished;
  }

  /**
   * `start`: sets the game up and runs the turn loop from the opening state: the
   * dealt hands and seeded piles, direction 1, hot, no colour bound, the first bot.
   * The run is the specification `Run` from that state, one roll per turn; when the
   * reshuffles run out before the discard pile is seeded, no turn is played. The
   * game keeps the full card set, and a win is reported at the bot whose hand is empty.
   */
  method Start(botCount: U8, deckOrder: seq<int>, dealOrder: seq<int>, reshuffles: seq<seq<int>>, rolls: seq<Roll>)
    returns (outcome: Outcome, players: seq<Bot>, draw: seq<Card>, discard: seq<Card>, cur: nat,
             ghost hands: seq<seq<Card>>, ghost humanHand: seq<Card>, ghost opening: GameState, seeded: bool,
             ghost deck: seq<Card>, ghost dealt: seq<Card>, ghost tries: nat)
    requires 1 <= botCount <= MAX_BOTS
    ensures |players| == botCount && cur < |players| && Seated(players, hands)
    ensures opening.dir == 1 && opening.isHot && opening.wildColor == None && opening.cur == 0
    ensures SetUpFrom(botCount, deckOrder, reshuffles, deck, dealt, tries, seeded,
                      opening.draw, opening.discard, opening.hands, humanHand)
    ensures |opening.hands| == botCount && forall k :: 0 <= k < botCount ==> |opening.hands[k]| == INITIAL_CARDS
    ensures FullSet(multiset(opening.draw) + multiset(opening.discard) + Pooled(opening.hands) + multiset(humanHand))
    ensures seeded ==> |opening.discard| == 1 && !opening.discard[0].Wild? && Playable(opening)
    ensures seeded ==> var r := Run(opening, rolls);
      outcome == r.0 && hands == r.1.hands && draw == r.1.draw && discard == r.1.discard && cur == r.1.cur
    ensures !seeded ==> outcome == Unfinished && hands == opening.hands && draw == opening.draw
                        && discard == opening.discard && cur == 0
    ensures FullSet(multiset(draw) + multiset(discard) + Pooled(hands) + multiset(humanHand))
    ensures outcome.Won? ==> outcome.winner == cur && players[cur].deck == []
    ensures outcome.Starved? ==> draw == [] && |discard| == 1
  {
    seeded, players, draw, discard, hands, humanHand, deck, dealt, tries := Setup(botCount, deckOrder, dealOrder, reshuffles);
    cur := 0;
    opening := GameState(hands, draw, discard, 1, true, None, 0);
    if !seeded {
      return Unfinished, players, draw, discard, cur, hands, humanHand, opening, seeded, deck, dealt, tries;
    }
    outcome, draw, discard, cur, hands := TurnLoop(players, hands, draw, discard, rolls);
    RunKeepsGame(opening, rolls);
  }
}
