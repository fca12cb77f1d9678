# UNO engine model

This project is a Dafny model of the game-state engine of `ein`, a text-mode UNO
game in which one human plays against bots (`src/main.rs`). The model covers these
parts of the engine:

- **Card rule.** `Card::accepts` decides whether a card may cover the top of the
  discard pile. Wild tops use a bound colour.
- **Deck lifecycle.** `gen_draw_pile` builds and shuffles the 108-card deck.
  `transfer_cards` moves cards from the draw pile into a hand; when the draw pile
  runs dry it recycles everything under the discard top, and it reports starvation
  when only the top is left. `init_discard_pile` seeds the discard pile with a card
  that is not wild. `init_players` deals seven cards per player.
- **The bot's turn.** `Bot::play` runs one turn:
  - While the state is hot, a Skip makes the bot pass, and a Draw2 or Draw4 makes it
    draw and pass.
  - Otherwise the bot plays a randomly chosen acceptable card. When it holds none, it
    draws one card and plays it if the top accepts it.
  - A Reverse flips the direction, a wild card binds a random colour, and an empty
    hand wins.
- **The turn loop of `start`.** The state starts hot with no bound colour and the
  direction 1. A placement makes the state hot and sets the bound colour; a pass makes
  it cold. The index moves on in the current direction. A win or starvation ends the
  game.

The modules follow the program's structure:

- `Cards` holds the card values and the acceptance rule.
- `Shuffling` holds the sequence operations the engine applies to its `Vec<Card>`
  piles: `shuffle`, `pop` and `swap_remove`.
- `Piles` holds the deck lifecycle.
- `Players` holds the `Bot` class and the deal. A bot's hand is a field that its
  methods update in place.
- `Game` holds `start`.

The piles the source passes by `&mut` are sequences that methods take in and hand
back. The end of a sequence is the end that `pop` and `push` work on.

Every random choice is an input:

- a shuffle is a Fisher-Yates pass whose choices are a `seq<int>`;
- `choose` becomes `pick % |legal|`;
- `rng.gen()` for a colour becomes a `Color` parameter;
- the unbounded reshuffle loop of `init_discard_pile` and the game loop each consume
  a supplied list of choices.

Each operation is proved against a specification function of its inputs; the opening
of `start` is tied to its random inputs by `Game.DealtFrom`, `Game.SeededFrom` and `Game.SetUpFrom`, and the turn
loop is proved against `Game.Run`, which applies `Game.Step` once per turn. The main
facts proved about those functions are:

- the deck has the exact UNO composition;
- no card is ever created or lost, across the draw pile, the discard pile and every
  hand, through the whole game;
- the discard top stays put or is covered by an accepted card;
- a wild top always has a colour bound to it, so the source's `unwrap` in
  `accepts` never fails during a game;
- the direction stays 1 or -1;
- a win means an empty hand;
- starvation means an empty draw pile with only the top on the discard pile.

The code settles these points of the rules as follows, and the model follows it:

- **Deck size.** The deck holds 108 cards: each colour has one 0, two of each of
  1–9 and two of each action, plus four of each wild kind.
- **Skip.** A Skip does not advance the index by two. The next bot sees the Skip
  on top while the state is hot and passes, and the state cools (`Game.HotSkipPasses`).
- **First turn.** `is_hot` starts true, so a Skip or Draw2 seeded as the first
  discard top is honoured by the first bot (`Game.OpeningDraw2`).
- **Reverse with two players.** A Reverse only flips the direction; with two
  players it has no further effect.
- **Starved transfer.** A transfer that starves keeps the cards it already moved.

## Model

| member | source | states |
|---|---|---|
| Cards.Accepts | src/main.rs:51-76 | A wild card is always accepted; a coloured card is accepted exactly when it has the colour the top asks for (its own, or the bound colour on a wild top) or, on a coloured top, the same number or action; the bound colour must exist where the source unwraps it |
| Cards.AcceptsSymmetricOnColored | src/main.rs:51-68 | Between two coloured cards the rule does not depend on which one lies on top |
| Cards.NumberOnActionOnlyByColor | src/main.rs:58-63 | A number card and an action card match only by colour, in either order |
| Cards.DrawPenalty | src/main.rs:312-336 | A hot Draw2 forces two cards, a hot Draw4 four, and every other top none |
| Shuffling.Shuffle | src/main.rs:104 | `shuffle`, with its random choices as input: the result is a rearrangement of the same elements |
| Shuffling.ShuffleBelowMultiset | src/main.rs:132 | Every Fisher-Yates pass, whatever the choices, keeps the multiset of elements |
| Shuffling.SwapMultiset | src/main.rs:143 | Exchanging two positions keeps the multiset of elements |
| Shuffling.Popped | src/main.rs:117-119 | Popping `n` cards takes them from the end, last card first |
| Shuffling.PoppedMultiset | src/main.rs:115-121 | The popped cards are exactly the last `n` cards of the pile |
| Shuffling.PoppedStep | src/main.rs:117-120 | One more pop appends the card just below those already popped |
| Shuffling.SwapRemove | src/main.rs:361 | `swap_remove` removes one card, moves the last card into its place and keeps every other position |
| Piles.PushRound | src/main.rs:88-96 | One round pushes the numbers 1..9 in order, then one card of each action |
| Piles.PushColor | src/main.rs:85-97 | One colour pushes a 0 and then two rounds |
| Piles.PushWilds | src/main.rs:98-102 | Four copies of one wild kind are pushed |
| Piles.FreshDeckCount | src/main.rs:82-102 | Each card occurs in the unshuffled deck exactly as often as the UNO composition says (one 0, two of 1–9 and of each action per colour, four of each wild) |
| Piles.FreshDeckComposition | src/main.rs:82-102 | The unshuffled deck has 108 cards with exactly those multiplicities |
| Piles.BlocksCount | src/main.rs:85-102 | With each colour and each wild kind walked once, the pushed blocks hold the expected copies of every card |
| Piles.ColorBlocksCount | src/main.rs:85-97 | The blocks of distinct colours hold the expected copies of every coloured card of those colours and nothing else |
| Piles.WildBlocksCount | src/main.rs:98-102 | The blocks of distinct wild kinds hold four copies of each of those wild cards and nothing else |
| Piles.GenDrawPile | src/main.rs:82-106 | The generated pile is the fresh deck in the order the shuffle choices give, and holds 108 cards with the full composition |
| Piles.Recycled | src/main.rs:129-132 | Recycling yields the discard pile below its top, rearranged |
| Piles.TransferredFacts | src/main.rs:108-139 | After `n` cards are moved, with or without a recycle: exactly `n` cards are added behind the hand's old cards, no card is created or lost, the discard top stays the top, and a recycle leaves only the top |
| Piles.RecycledConserves | src/main.rs:122-133 | Recycling the discard pile and popping from the pool neither creates nor loses a card |
| Piles.AfterTransferFacts | src/main.rs:108-139 | A full transfer adds exactly `amount` cards; a starved one empties the draw pile and leaves only the discard top; either way the old hand stays in front, cards are conserved and the top stays |
| Piles.AfterTransferFromDraw | src/main.rs:115-121 | While the draw pile holds enough cards, a transfer pops them into the hand and leaves the discard pile untouched |
| Piles.TransferredPop | src/main.rs:117-120 | Each further card moved is the one at the end of the current draw pile |
| Piles.TransferredRecycle | src/main.rs:122-133 | An empty draw pile with more than the top on the discard pile is refilled by the shuffled cards under the top, which is left alone |
| Piles.TransferCards | src/main.rs:108-139 | `transfer_cards` reports starvation exactly when more cards are asked for than the draw pile and the cards under the discard top can supply, and leaves the piles and hand as the transfer specification says |
| Piles.Reshuffled | src/main.rs:142-144 | Every sequence of reshuffles keeps the draw pile's cards |
| Piles.ReshuffledNext | src/main.rs:142-144 | Each reshuffle acts on the arrangement reached so far, and the loop continues exactly while a wild card is last |
| Piles.InitDiscardPile | src/main.rs:141-146 | The draw pile is reshuffled while a wild card is last; then its last card, which is not wild, becomes the discard pile's top; no card is created or lost |
| Players.LegalIndices | src/main.rs:340-345 | The legal positions are positions of the hand |
| Players.LegalIndicesExact | src/main.rs:340-345 | The legal positions are exactly the positions of accepted cards, strictly increasing |
| Players.Placed | src/main.rs:360-386 | Placing a card moves it from the hand onto the discard pile; a Reverse flips the direction; a wild card binds the named colour; the result is a win exactly when the hand had one card |
| Players.PlacedOnTop | src/main.rs:342-386 | Placing an accepted card puts it right on the old top, with direction, colour and win decided as placement says |
| Players.Penalized | src/main.rs:315-332 | Drawing `n` cards and passing, or starvation exactly when the piles cannot supply them: drawn cards go behind the hand, the top stays, cards are conserved |
| Players.TopAfterBindsColor | src/main.rs:233-240 | After any turn, a wild top still has a colour bound: the old one after a pass, the named one after a placement; the direction stays ±1 |
| Players.DrawnCardPlayed | src/main.rs:354-361 | Playing the card just drawn leaves the hand as it was before the draw and puts the card on the old top |
| Players.DrawnTurnFacts | src/main.rs:348-358 | A bot without an acceptable card starves exactly when no card is available; otherwise it keeps the drawn card behind its hand or plays it, leaving its old hand |
| Players.NormalTurnFacts | src/main.rs:339-389 | A bot holding an acceptable card plays the one `pick` selects and draws nothing; a bot holding none makes the drawing turn |
| Players.BotTurnFacts | src/main.rs:299-390 | Every bot turn conserves cards, leaves the top in place or covers it with an accepted card, and starves only with an empty draw pile and a lone top |
| Players.BotTurnHot | src/main.rs:310-337 | While hot, a Skip makes the bot pass untouched, a Draw2 or Draw4 makes it draw two or four cards (or starve), and any other top gives a normal turn |
| Players.Bot.constructor | src/main.rs:168 | A bot is created holding the dealt hand |
| Players.Bot.LegalMoves | src/main.rs:340-345 | The search loop collects exactly the legal positions |
| Players.Bot.PlaceCard | src/main.rs:360-386 | The placing block updates the hand, discard pile, direction and result as placement says |
| Players.Bot.Penalize | src/main.rs:315-332 | A forced draw updates the hand and piles as `Penalized` says |
| Players.Bot.Play | src/main.rs:299-390 | One turn changes the bot's hand, the piles and the direction exactly as the turn specification `BotTurn` says |
| Players.Bot.DrawAndPlay | src/main.rs:348-358 | The drawing path changes the hand and piles exactly as `DrawnTurn` says |
| Players.DealHand | src/main.rs:157-164 | A dealt hand's cards come off the piles, the top is kept, and with enough cards the hand is the last seven popped off the draw pile |
| Players.SeatBot | src/main.rs:157-168 | A new bot receives a hand dealt as above |
| Players.DealingStep | src/main.rs:156-170 | Dealing one more hand extends the conservation and the in-order facts of the deal |
| Players.SeatBots | src/main.rs:156-170 | Each of `botCount` distinct new bots receives its hand; cards are conserved, and with enough cards the hands are consecutive runs of seven popped cards |
| Players.InitPlayers | src/main.rs:148-173 | The human's hand is dealt first and dropped, then the bots' hands; cards are conserved, and with enough cards the human's hand and the bots' hands are consecutive runs of seven popped cards |
| Game.NextIndex | src/main.rs:244 | The next index is `(cur + dir) mod n`, always in range: the next player forwards or backwards, wrapping at either end |
| Game.TurnKeepsGame | src/main.rs:223-245 | Across a turn the cards on the table and in all hands are conserved, the direction stays ±1, a wild top keeps a bound colour, a win means an empty hand and starvation an empty table |
| Game.TakeTurn | src/main.rs:224-232 | A bot's turn inside the loop follows `BotTurn`, the mirror of the hands follows its new hand, and the game-wide facts carry over |
| Game.Step | src/main.rs:223-244 | One pass of the loop conserves cards, keeps the bot index in range and the direction ±1, leaves a playable state (a wild top with its colour) after a placement or a pass, stops at the winner with an empty hand, and at starvation with an empty draw pile and a lone top |
| Game.RunKeepsGame | src/main.rs:223-245 | However many turns are played, cards are conserved, the index and direction stay valid, an unfinished game is playable, a win is the current bot's with an empty hand, and starvation leaves an empty draw pile and a lone top |
| Game.HotSkipPasses | src/main.rs:310-314 | A hot Skip makes the bot pass with hands and piles unchanged; the loop (lines 238-244) then cools the state and moves the turn on one place |
| Game.OpeningDraw2 | src/main.rs:312-320 | Since the state starts hot (line 209), a Draw2 seeded as the first top makes the first bot draw the last two cards of the draw pile (or starve) and pass |
| Game.TurnLoop | src/main.rs:209-245 | The loop, started with direction 1, hot, no colour bound and the first bot, ends with exactly the outcome, piles, hands and index of `Run` over the rolls |
| Game.Deal | src/main.rs:206-219 | The draw pile is the fresh deck shuffled by `deckOrder`; the human's hand is the first seven cards popped off its end and each bot's hand the next run of seven, in order; the rest stays on the draw pile and the discard pile is still empty; all cards form the full UNO set |
| Game.SeedDiscardPile | src/main.rs:220 | Seeding the empty discard pile from the dealt draw pile reshuffles by `reshuffles` while a wild card is last; it is seeded exactly when a non-wild card ends up last, with that card alone and the rest left as the draw pile, otherwise the reshuffles ran out; no card is lost |
| Game.Setup | src/main.rs:204-220 | After the deal of `Game.Deal`, the dealt draw pile is reshuffled by `reshuffles` while a wild card is last; the discard pile is seeded exactly when a non-wild card ends up last, with that card and the rest left as the draw pile, and otherwise the reshuffles ran out; the full set is distributed over the piles and hands |
| Game.SetUpSizes | src/main.rs:204-220 | After a seeding of a deal of seven cards per player, the discard pile is one non-wild card and the draw pile holds 108 minus seven per player, minus one |
| Game.Start | src/main.rs:204-245 | The game opens, as `Game.Setup` says of `deckOrder` and `reshuffles`, in direction 1, hot, with no colour bound, at the first bot; when the discard pile was seeded the run equals `Run` from that opening, otherwise no turn is played; the full set is kept, a win is reported at the bot whose hand is empty, starvation with an empty draw pile and a lone discard top |

## Left out

- `ask_bot_count` (src/main.rs:175-190) reads standard input. Its result is the `botCount` input, restricted to 1..=`MAX_BOTS` as the prompt loop enforces.
- `announce_bot_move` (src/main.rs:393-396) only prints and sleeps.
- The game-over messages (src/main.rs:247-258) only print. As written, index 0 is announced as "you win" although index 0 is a bot, since the human is not seated.
- `main` only calls `start`.
- `Human::play` (src/main.rs:281-294) is left out. The human is never seated: the line that would seat it (src/main.rs:166) is commented out. Its dealt hand is kept as a ghost value so that conservation of the full card set can be stated.
- The `Distribution<Color>` sampler (src/main.rs:192-202) and `ThreadRng` are left out. Every random choice is an input, and any colour may be named.
- Shuffling.Shuffle: proves only that a shuffle is a rearrangement. It does not model the distribution of outcomes or show that every permutation is reachable.
- Piles.InitDiscardPile: the source reshuffles without bound. The model stops after the supplied reshuffles and reports `ok == false` if a wild card is still last.
- Game.Start, Game.TurnLoop and Game.Run: the source loops until a win or starvation. The model stops after the supplied rolls and reports `Unfinished`.
- Piles.TransferCards: the source's inner `loop` is written as one pop after at most one recycle. After a recycle the `loop` goes round once more and that pass pops a card, since the draw pile is then non-empty. It never recycles twice, because after a recycle only the top is left on the discard pile.
- Players.Bot.Play: requires `ColorBound`, which is stricter than the source. The source panics only when a coloured card meets a wild top with no bound colour, and it never checks the top otherwise. `Game.Step` and `Game.RunKeepsGame` prove that `ColorBound` holds before every turn, so the stricter requirement never excludes a reachable game state.
- Piles.TransferCards, Players.DealHand and Players.InitPlayers: require a non-empty discard pile or enough cards on the draw pile. Otherwise the source's `drain(..len - 1)` underflows.
- Piles.InitDiscardPile: requires a non-empty draw pile, as the source's `last().unwrap()` (src/main.rs:142) panics on an empty one. The game calls it with 108 minus the dealt cards.
- The `i8` direction, the `u8` counts and the `usize` index conversions are left out. The direction is an integer proved to stay 1 or -1, and with at most nine bots no conversion can fail.
- Game.NextIndex: requires a direction of 1 or -1, the only values the game produces.
