/**
 * The deck lifecycle: building the full card set, moving cards from the draw
 * pile into a hand with recycling of the discard pile, and seeding the discard
 * pile. The source's `Vec<Card>` piles passed by `&mut` are sequences passed in
 * and handed back; the last element of a sequence is the end `pop` and `push`
 * work on (the top of the discard pile, the next card of the draw pile).
 */
module Piles {
  import opened Cards
  import opened Shuffling

  // ---------------------------------------------------------------------------
  // The fixed composition of a fresh deck
  // ---------------------------------------------------------------------------

  /** The number cards 1..n of one colour, in increasing order. */
  function Numbers(c: Color, n: nat): (r: seq<Card>)
    requires n <= 9
    ensures |r| == n
  {
    seq(n, k requires 0 <= k < n => Number(k + 1, c))
  }

  /** One action card of each kind in one colour, in the order of `ACTIONS`. */
  function ActionCards(c: Color): (r: seq<Card>)
    ensures |r| == |ACTIONS| == 3
  {
    seq(|ACTIONS|, k requires 0 <= k < |ACTIONS| => ActionCard(ACTIONS[k], c))
  }

  /** One pass of the generator's inner loop: numbers 1..9, then the actions. */
  function Round(c: Color): seq<Card>
  {
    Numbers(c, 9) + ActionCards(c)
  }

  function Rounds(c: Color, n: nat): seq<Card>
  {
    if n == 0 then [] else Rounds(c, n - 1) + Round(c)
  }

  /** Everything the generator pushes for one colour. */
  function ColorBlock(c: Color): seq<Card>
  {
    [Number(0, c)] + Rounds(c, 2)
  }

  function ColorBlocks(cs: seq<Color>): seq<Card>
  {
    if cs == [] then [] else ColorBlocks(cs[..|cs| - 1]) + ColorBlock(cs[|cs| - 1])
  }

  function Wilds(w: WildAction, n: nat): (r: seq<Card>)
    ensures |r| == n
  {
    seq(n, _ => Wild(w))
  }

  function WildBlocks(ws: seq<WildAction>): seq<Card>
  {
    if ws == [] then [] else WildBlocks(ws[..|ws| - 1]) + Wilds(ws[|ws| - 1], 4)
  }

  /** The unshuffled deck, in the order the generator pushes it. */
  function FreshDeck(): seq<Card>
  {
    ColorBlocks(COLORS) + WildBlocks(WILD_ACTIONS)
  }

  /**
   * How many copies of a card the full set holds: one 0 and two of each of 1..9
   * per colour, two of each action per colour, four of each wild kind.
   */
  function ExpectedCount(card: Card): nat
  {
    match card
    case Number(n, _) => if n == 0 then 1 else if n <= 9 then 2 else 0
    case ActionCard(_, _) => 2
    case Wild(_) => 4
  }

  /** `m` holds each card exactly as often as the full set does. */
  ghost predicate FullSet(m: multiset<Card>)
  {
    forall card :: m[card] == ExpectedCount(card)
  }

  lemma {:induction false} NumbersCount(c: Color, n: nat, card: Card)
    requires n <= 9
    ensures multiset(Numbers(c, n))[card]
            == if card.Number? && card.color == c && 1 <= card.number <= n then 1 else 0
  {
    if n > 0 {
      assert Numbers(c, n) == Numbers(c, n - 1) + [Number(n, c)];
      NumbersCount(c, n - 1, card);
    }
  }

  lemma ActionCardsCount(c: Color, card: Card)
    ensures multiset(ActionCards(c))[card] == if card.ActionCard? && card.color == c then 1 else 0
  {
    assert ActionCards(c) == [ActionCard(Draw2, c), ActionCard(Reverse, c), ActionCard(Skip, c)];
    assert multiset(ActionCards(c)) == multiset{ActionCard(Draw2, c), ActionCard(Reverse, c), ActionCard(Skip, c)};
    if card.ActionCard? && card.color == c {
      match card.action
      case Draw2 =>
      case Reverse =>
      case Skip =>
    }
  }

  lemma RoundCount(c: Color, card: Card)
    ensures multiset(Round(c))[card]
            == if !card.Wild? && card.color == c && (card.Number? ==> 1 <= card.number <= 9) then 1 else 0
  {
    NumbersCount(c, 9, card);
    ActionCardsCount(c, card);
  }

  lemma {:induction false} RoundsCount(c: Color, n: nat, card: Card)
    ensures multiset(Rounds(c, n))[card]
            == if !card.Wild? && card.color == c && (card.Number? ==> 1 <= card.number <= 9) then n else 0
  {
    if n > 0 {
      assert multiset(Rounds(c, n)) == multiset(Rounds(c, n - 1)) + multiset(Round(c));
      RoundsCount(c, n - 1, card);
      RoundCount(c, card);
    }
  }

  lemma ColorBlockCount(c: Color, card: Card)
    ensures multiset(ColorBlock(c))[card] == if !card.Wild? && card.color == c then ExpectedCount(card) else 0
  {
    RoundsCount(c, 2, card);
  }

  lemma {:induction false} ColorBlocksCount(cs: seq<Color>, card: Card)
    requires forall i, j :: 0 <= i < j < |cs| ==> cs[i] != cs[j]
    ensures multiset(ColorBlocks(cs))[card] == if !card.Wild? && card.color in cs then ExpectedCount(card) else 0
  {
    if cs != [] {
      var init := cs[..|cs| - 1];
      var last := cs[|cs| - 1];
      assert cs == init + [last];
      assert last !in init;
      if !card.Wild? {
        assert card.color in cs <==> card.color in init || card.color == last;
      }
      ColorBlocksCount(init, card);
      ColorBlockCount(last, card);
      assert multiset(ColorBlocks(cs)) == multiset(ColorBlocks(init)) + multiset(ColorBlock(last));
    }
  }

  lemma WildsCount(w: WildAction, card: Card)
    ensures multiset(Wilds(w, 4))[card] == if card == Wild(w) then 4 else 0
  {
    assert Wilds(w, 4) == [Wild(w), Wild(w), Wild(w), Wild(w)];
  }

  lemma {:induction false} WildBlocksCount(ws: seq<WildAction>, card: Card)
    requires forall i, j :: 0 <= i < j < |ws| ==> ws[i] != ws[j]
    ensures multiset(WildBlocks(ws))[card] == if card.Wild? && card.wildAction in ws then 4 else 0
  {
    if ws != [] {
      var init := ws[..|ws| - 1];
      var last := ws[|ws| - 1];
      assert ws == init + [last];
      assert last !in init;
      if card.Wild? {
        assert card.wildAction in ws <==> card.wildAction in init || card.wildAction == last;
      }
      WildBlocksCount(init, card);
      WildsCount(last, card);
      assert multiset(WildBlocks(ws)) == multiset(WildBlocks(init)) + multiset(Wilds(last, 4));
    }
  }

  lemma {:induction false} RoundsLength(c: Color, n: nat)
    ensures |Rounds(c, n)| == 12 * n
  {
    if n > 0 {
      RoundsLength(c, n - 1);
    }
  }

  lemma {:induction false} ColorBlocksLength(cs: seq<Color>)
    ensures |ColorBlocks(cs)| == 25 * |cs|
  {
    if cs != [] {
      ColorBlocksLength(cs[..|cs| - 1]);
      RoundsLength(cs[|cs| - 1], 2);
    }
  }

  lemma {:induction false} WildBlocksLength(ws: seq<WildAction>)
    ensures |WildBlocks(ws)| == 4 * |ws|
  {
    if ws != [] {
      WildBlocksLength(ws[..|ws| - 1]);
    }
  }

  /** Distinct colours and distinct wild kinds: how often one card occurs in their blocks. */
  lemma BlocksCount(cs: seq<Color>, ws: seq<WildAction>, card: Card)
    requires forall i, j :: 0 <= i < j < |cs| ==> cs[i] != cs[j]
    requires forall i, j :: 0 <= i < j < |ws| ==> ws[i] != ws[j]
    requires forall c: Color :: c in cs
    requires forall w: WildAction :: w in ws
    ensures multiset(ColorBlocks(cs) + WildBlocks(ws))[card] == ExpectedCount(card)
  {
    ColorBlocksCount(cs, card);
    WildBlocksCount(ws, card);
  }

  lemma FreshDeckCount(card: Card)
    ensures multiset(FreshDeck())[card] == ExpectedCount(card)
  {
    assert COLORS[0] == Red && COLORS[1] == Blue && COLORS[2] == Green && COLORS[3] == Yellow;
    assert WILD_ACTIONS[0] == ChangeColor && WILD_ACTIONS[1] == Draw4;
    assert forall c: Color :: c in COLORS by {
      forall c: Color ensures c in COLORS {
        match c
        case Red =>
        case Blue =>
        case Green =>
        case Yellow =>
      }
    }
    assert forall w: WildAction :: w in WILD_ACTIONS by {
      forall w: WildAction ensures w in WILD_ACTIONS {
        match w
        case ChangeColor =>
        case Draw4 =>
      }
    }
    BlocksCount(COLORS, WILD_ACTIONS, card);
  }

  /** The full set: 108 cards with exactly the multiplicities of `ExpectedCount`. */
  lemma FreshDeckComposition()
    ensures |FreshDeck()| == 108
    ensures forall card :: multiset(FreshDeck())[card] == ExpectedCount(card)
  {
    ColorBlocksLength(COLORS);
    WildBlocksLength(WILD_ACTIONS);
    forall card
      ensures multiset(FreshDeck())[card] == ExpectedCount(card)
    {
      FreshDeckCount(card);
    }
  }

  lemma ColorBlocksStep(cs: seq<Color>, i: nat)
    requires i < |cs|
    ensures ColorBlocks(cs[..i + 1]) == ColorBlocks(cs[..i]) + ColorBlock(cs[i])
  {
    assert cs[..i + 1][..i] == cs[..i];
  }

  lemma WildBlocksStep(ws: seq<WildAction>, i: nat)
    requires i < |ws|
    ensures WildBlocks(ws[..i + 1]) == WildBlocks(ws[..i]) + Wilds(ws[i], 4)
  {
    assert ws[..i + 1][..i] == ws[..i];
  }

  /** One pass of the generator's middle loop: pushes the numbers 1..9, then one card of each action. */
  method PushRound(pile: seq<Card>, color: Color) returns (pile': seq<Card>)
    ensures pile' == pile + Round(color)
  {
    pile' := pile;
    for number := 1 to 10
      invariant pile' == pile + Numbers(color, number - 1)
    {
      assert Numbers(color, number) == Numbers(color, number - 1) + [Number(number, color)];
      pile' := pile' + [Number(number, color)];
    }
    for a := 0 to |ACTIONS|
      invariant pile' == pile + Numbers(color, 9) + ActionCards(color)[..a]
    {
      assert ActionCards(color)[..a + 1] == ActionCards(color)[..a] + [ActionCard(ACTIONS[a], color)];
      pile' := pile' + [ActionCard(ACTIONS[a], color)];
    }
    assert ActionCards(color)[..|ACTIONS|] == ActionCards(color);
  }

  /** The body of the generator's colour loop: a 0, then two rounds. */
  method PushColor(pile: seq<Card>, color: Color) returns (pile': seq<Card>)
    ensures pile' == pile + ColorBlock(color)
  {
    pile' := pile + [Number(0, color)];
    for round := 0 to 2
      invariant pile' == pile + [Number(0, color)] + Rounds(color, round)
    {
      pile' := PushRound(pile', color);
    }
  }

  /** The generator's inner wild loop: four copies of one wild kind. */
  method PushWilds(pile: seq<Card>, w: WildAction) returns (pile': seq<Card>)
    ensures pile' == pile + Wilds(w, 4)
  {
    pile' := pile;
    for k := 0 to 4
      invariant pile' == pile + Wilds(w, k)
    {
      assert Wilds(w, k + 1) == Wilds(w, k) + [Wild(w)];
      pile' := pile' + [Wild(w)];
    }
  }

  /**
   * The generator: for each colour a 0 and two rounds of 1..9 and the actions, then
   * four of each wild kind, then a shuffle. The result is the fresh deck rearranged
   * by `order`, holding exactly the expected number of copies of every card.
   */
  method GenDrawPile(order: seq<int>) returns (pile: seq<Card>)
    ensures pile == Shuffle(FreshDeck(), order)
    ensures |pile| == 108 && FullSet(multiset(pile))
  {
    pile := [];
    for i := 0 to |COLORS|
      invariant pile == ColorBlocks(COLORS[..i])
    {
      pile := PushColor(pile, COLORS[i]);
      ColorBlocksStep(COLORS, i);
    }
    assert COLORS[..|COLORS|] == COLORS;
    ghost var colored := pile;
    for w := 0 to |WILD_ACTIONS|
      invariant pile == colored + WildBlocks(WILD_ACTIONS[..w])
    {
      pile := PushWilds(pile, WILD_ACTIONS[w]);
      WildBlocksStep(WILD_ACTIONS, w);
    }
    assert WILD_ACTIONS[..|WILD_ACTIONS|] == WILD_ACTIONS;
    FreshDeckComposition();
    pile := Shuffle(pile, order);
  }

  // ---------------------------------------------------------------------------
  // Drawing cards, with recycling of the discard pile
  // ---------------------------------------------------------------------------

  datatype Table = Table(draw: seq<Card>, discard: seq<Card>, deck: seq<Card>)

  /** Cards a transfer can hand out: the draw pile and everything under the discard top. */
  function Available(draw: seq<Card>, discard: seq<Card>): nat
  {
    |draw| + if |discard| >= 1 then |discard| - 1 else 0
  }

  /** What the draw pile becomes when the discard pile below its top is recycled. */
  function Recycled(discard: seq<Card>, order: seq<int>): (pool: seq<Card>)
    requires |discard| >= 1
    ensures |pool| == |discard| - 1
    ensures multiset(pool) == multiset(discard[..|discard| - 1])
  {
    Shuffle(discard[..|discard| - 1], order)
  }

  /**
   * The three piles after `n` cards have gone from the draw pile into the deck,
   * popped from the end; `recycled` says whether the discard pile has been
   * recycled into the draw pile on the way (which happens once the draw pile
   * runs dry, and at most once, since afterwards only the top is left).
   */
  function Transferred(draw: seq<Card>, discard: seq<Card>, deck: seq<Card>, order: seq<int>,
                       n: nat, recycled: bool): Table
    requires if recycled then |discard| >= 2 && |draw| <= n <= Available(draw, discard) else n <= |draw|
  {
    if !recycled then
      Table(draw[..|draw| - n], discard, deck + Popped(draw, n))
    else
      var pool := Recycled(discard, order);
      var j := n - |draw|;
      Table(pool[..|pool| - j], [discard[|discard| - 1]], deck + Popped(draw, |draw|) + Popped(pool, j))
  }

  /**
   * Whatever the number of cards moved: exactly `n` cards are appended to the deck,
   * the deck's old cards stay in front, no card is created or lost, the discard top
   * stays the top, and recycling leaves nothing but the top on the discard pile.
   */
  lemma TransferredFacts(draw: seq<Card>, discard: seq<Card>, deck: seq<Card>, order: seq<int>,
                         n: nat, recycled: bool)
    requires if recycled then |discard| >= 2 && |draw| <= n <= Available(draw, discard) else n <= |draw|
    ensures var t := Transferred(draw, discard, deck, order, n, recycled);
      && |t.deck| == |deck| + n
      && t.deck[..|deck|] == deck
      && multiset(t.draw) + multiset(t.discard) + multiset(t.deck)
         == multiset(draw) + multiset(discard) + multiset(deck)
      && |t.draw| + n == Available(draw, discard) - (if recycled || |discard| == 0 then 0 else |discard| - 1)
      && (|discard| >= 1 ==> |t.discard| >= 1 && t.discard[|t.discard| - 1] == discard[|discard| - 1])
      && t.discard == (if recycled then [discard[|discard| - 1]] else discard)
  {
    if recycled {
      RecycledConserves(draw, discard, deck, order, n);
    } else {
      PoppedMultiset(draw, n);
      assert draw == draw[..|draw| - n] + draw[|draw| - n..];
    }
  }

  /** The recycling half of `TransferredFacts`: recycling and popping neither create nor lose a card. */
  lemma RecycledConserves(draw: seq<Card>, discard: seq<Card>, deck: seq<Card>, order: seq<int>, n: nat)
    requires |discard| >= 2 && |draw| <= n <= Available(draw, discard)
    ensures var t := Transferred(draw, discard, deck, order, n, true);
      && multiset(t.draw) + multiset(t.discard) + multiset(t.deck)
         == multiset(draw) + multiset(discard) + multiset(deck)
  {
    var pool := Recycled(discard, order);
    var j := n - |draw|;
    PoppedMultiset(pool, j);
    PoppedMultiset(draw, |draw|);
    assert draw[|draw| - |draw|..] == draw;
    assert pool == pool[..|pool| - j] + pool[|pool| - j..];
    assert multiset(pool[..|pool| - j]) + multiset(Popped(pool, j)) == multiset(discard[..|discard| - 1]);
    assert discard == discard[..|discard| - 1] + [discard[|discard| - 1]];
  }

  /**
   * The piles after a request for `amount` cards: as many as are available are
   * moved, recycling the discard pile below its top once the draw pile runs dry.
   */
  function AfterTransfer(draw: seq<Card>, discard: seq<Card>, deck: seq<Card>, order: seq<int>, amount: nat): Table
    requires |discard| >= 1 || amount <= |draw|
  {
    var n := if amount > Available(draw, discard) then Available(draw, discard) else amount;
    Transferred(draw, discard, deck, order, n, n > |draw|)
  }

  /**
   * What a transfer promises: a full transfer appends exactly `amount` cards to the
   * deck; a starved one leaves an empty draw pile and only the top on the discard
   * pile; either way the deck's old cards stay in front, no card is created or lost,
   * and the discard top stays the top, alone or with everything it had below it.
   */
  lemma AfterTransferFacts(draw: seq<Card>, discard: seq<Card>, deck: seq<Card>, order: seq<int>, amount: nat)
    requires |discard| >= 1 || amount <= |draw|
    ensures var t := AfterTransfer(draw, discard, deck, order, amount);
      && (amount <= Available(draw, discard) ==> |t.deck| == |deck| + amount)
      && (amount > Available(draw, discard) ==> t.draw == [] && |t.discard| == 1)
      && t.deck[..|deck|] == deck
      && multiset(t.draw) + multiset(t.discard) + multiset(t.deck)
         == multiset(draw) + multiset(discard) + multiset(deck)
      && (|discard| >= 1 ==> |t.discard| >= 1 && t.discard[|t.discard| - 1] == discard[|discard| - 1])
      && (t.discard == discard || t.discard == [discard[|discard| - 1]])
  {
    var n := if amount > Available(draw, discard) then Available(draw, discard) else amount;
    TransferredFacts(draw, discard, deck, order, n, n > |draw|);
  }

  /** While the draw pile holds enough cards, a transfer pops them and leaves the discard pile alone. */
  lemma AfterTransferFromDraw(draw: seq<Card>, discard: seq<Card>, deck: seq<Card>, order: seq<int>, amount: nat)
    requires amount <= |draw|
    ensures AfterTransfer(draw, discard, deck, order, amount)
            == Table(draw[..|draw| - amount], discard, deck + Popped(draw, amount))
  {
  }

  /** Moving one more card pops the end of the current draw pile onto the deck. */
  lemma TransferredPop(draw: seq<Card>, discard: seq<Card>, deck: seq<Card>, order: seq<int>,
                       i: nat, recycled: bool)
    requires if recycled then |discard| >= 2 && |draw| <= i < Available(draw, discard) else i < |draw|
    ensures var t := Transferred(draw, discard, deck, order, i, recycled);
      && |t.draw| >= 1
      && Transferred(draw, discard, deck, order, i + 1, recycled)
         == Table(t.draw[..|t.draw| - 1], t.discard, t.deck + [t.draw[|t.draw| - 1]])
  {
    if recycled {
      PoppedStep(Recycled(discard, order), i - |draw|);
    } else {
      PoppedStep(draw, i);
    }
  }

  /**
   * Once the draw pile is exhausted, recycling puts the shuffled discard pile below
   * its top in its place and leaves the top alone on the discard pile.
   */
  lemma TransferredRecycle(draw: seq<Card>, discard: seq<Card>, deck: seq<Card>, order: seq<int>,
                           t: Table)
    requires |discard| >= 2
    requires t == Transferred(draw, discard, deck, order, |draw|, false)
    ensures t.draw == [] && t.discard == discard
    ensures Transferred(draw, discard, deck, order, |draw|, true)
            == Table(Shuffle(t.draw + t.discard[..|t.discard| - 1], order), [t.discard[|t.discard| - 1]], t.deck)
  {
    assert t.draw == draw[..0] == [];
    var rest := discard[..|discard| - 1];
    assert t.draw + t.discard[..|t.discard| - 1] == rest;
    var pool := Shuffle(rest, order);
    assert pool[..|pool| - 0] == pool;
    assert Popped(pool, 0) == [];
    assert t.deck + Popped(pool, 0) == t.deck;
  }

  /**
   * `transfer_cards`: moves `amount` cards one at a time from the end of the draw
   * pile to the end of `deck`. When the draw pile is empty, everything on the
   * discard pile except its top is moved over and shuffled (the random choice is
   * `order`); when only the top is left the transfer stops and reports starvation,
   * keeping the cards already moved. The source underflows when it must recycle an
   * empty discard pile, hence the precondition.
   */
  method TransferCards(draw: seq<Card>, discard: seq<Card>, deck: seq<Card>, amount: U8, order: seq<int>)
    returns (starved: bool, draw': seq<Card>, discard': seq<Card>, deck': seq<Card>)
    requires |discard| >= 1 || amount <= |draw|
    ensures starved <==> amount > Available(draw, discard)
    ensures Table(draw', discard', deck') == AfterTransfer(draw, discard, deck, order, amount)
  {
    starved := false;
    draw', discard', deck' := draw, discard, deck;
    ghost var recycled := false;
    for i := 0 to amount
      invariant recycled == (i > |draw|)
      invariant recycled ==> |discard| >= 2 && i <= Available(draw, discard)
      invariant Table(draw', discard', deck') == Transferred(draw, discard, deck, order, i, recycled)
    {
      // The source's inner `loop` pops, or recycles and goes round once more to pop.
      // It never recycles twice: after a recycle only the top is left on the discard
      // pile, and the draw pile holds at least one card, so the next pass pops it.
      if |draw'| == 0 {
        if |discard'| == 1 {
          starved := true;
          TransferredFacts(draw, discard, deck, order, i, recycled);
          return;
        }
        TransferredRecycle(draw, discard, deck, order, Table(draw', discard', deck'));
        draw' := draw' + discard'[..|discard'| - 1];
        discard' := [discard'[|discard'| - 1]];
        draw' := Shuffle(draw', order);
        recycled := true;
      }
      TransferredPop(draw, discard, deck, order, i, recycled);
      var card := draw'[|draw'| - 1];
      draw' := draw'[..|draw'| - 1];
      deck' := deck' + [card];
    }
    TransferredFacts(draw, discard, deck, order, amount, recycled);
  }

  // ---------------------------------------------------------------------------
  // Seeding the discard pile
  // ---------------------------------------------------------------------------

  /** The draw pile after the first `k` of the supplied reshuffles. */
  function Reshuffled(draw: seq<Card>, reshuffles: seq<seq<int>>, k: nat): (r: seq<Card>)
    requires k <= |reshuffles|
    ensures |r| == |draw| && multiset(r) == multiset(draw)
  {
    if k == 0 then draw else Shuffle(Reshuffled(draw, reshuffles, k - 1), reshuffles[k - 1])
  }

  /** The last card was a wild card after each of the first `k` arrangements (before reshuffle 1, ..., k). */
  predicate WildOnTopThrough(draw: seq<Card>, reshuffles: seq<seq<int>>, k: nat)
    requires |draw| >= 1 && k <= |reshuffles|
  {
    k == 0 || (WildOnTopThrough(draw, reshuffles, k - 1) && Reshuffled(draw, reshuffles, k - 1)[|draw| - 1].Wild?)
  }

  /** One more reshuffle shuffles the arrangement reached so far; a wild last card extends the run. */
  lemma ReshuffledNext(draw: seq<Card>, reshuffles: seq<seq<int>>, k: nat)
    requires |draw| >= 1 && k < |reshuffles|
    ensures Reshuffled(draw, reshuffles, k + 1) == Shuffle(Reshuffled(draw, reshuffles, k), reshuffles[k])
    ensures WildOnTopThrough(draw, reshuffles, k + 1)
            == (WildOnTopThrough(draw, reshuffles, k) && Reshuffled(draw, reshuffles, k)[|draw| - 1].Wild?)
  {
  }

  /**
   * `init_discard_pile`: reshuffles the draw pile while its last card is a wild
   * card, then moves that last card onto the discard pile. The source keeps
   * drawing fresh shuffles from its generator; here they are the supplied list,
   * and `ok` is false when the list runs out while a wild card is still last.
   * The source unwraps `last()`, so the draw pile must not be empty.
   */
  method InitDiscardPile(discard: seq<Card>, draw: seq<Card>, reshuffles: seq<seq<int>>)
    returns (ok: bool, discard': seq<Card>, draw': seq<Card>, tries: nat)
    requires |draw| >= 1
    ensures tries <= |reshuffles| && WildOnTopThrough(draw, reshuffles, tries)
    ensures var s := Reshuffled(draw, reshuffles, tries);
      && ok == !s[|s| - 1].Wild?
      && (ok ==> discard' == discard + [s[|s| - 1]] && draw' == s[..|s| - 1])
      && (!ok ==> tries == |reshuffles| && discard' == discard && draw' == s)
    ensures multiset(draw') + multiset(discard') == multiset(draw) + multiset(discard)
  {
    draw' := draw;
    tries := 0;
    while draw'[|draw'| - 1].Wild? && tries < |reshuffles|
      invariant tries <= |reshuffles|
      invariant draw' == Reshuffled(draw, reshuffles, tries)
      invariant WildOnTopThrough(draw, reshuffles, tries)
    {
      ReshuffledNext(draw, reshuffles, tries);
      draw' := Shuffle(draw', reshuffles[tries]);
      tries := tries + 1;
    }
    ghost var s := draw';
    assert |s| == |draw| && multiset(s) == multiset(draw);
    if draw'[|draw'| - 1].Wild? {
      ok, discard' := false, discard;
      return;
    }
    var card := draw'[|draw'| - 1];
    assert multiset(s) == multiset(s[..|s| - 1]) + multiset{card} by {
      assert s == s[..|s| - 1] + [card];
    }
    ok, discard', draw' := true, discard + [card], draw'[..|draw'| - 1];
  }
}
