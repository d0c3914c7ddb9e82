# A verified model of the chat and game server

The server carries chat messages between clients and runs mahjong games under two rule sets, Huitong and
Taihu. These Dafny modules model the parts with hard invariants, in the form the code has them (classes and
loops over arrays, maps and slices where it updates in place), and prove what they keep. Every method is
tied to a function of the old state or of its inputs; the theorems are about those functions, over every
input, history or run.

| modules | what they model |
|---|---|
| `Tiles`, `Melds`, `Winning`, `Patterns` | tiles, the backtracking hand recognition, win patterns and settlement |
| `Game`, `Engines`, `Decks` | the rules as functions between tables, the engine's methods, the decks |
| `GameProofs`, `GameRuns` | conservation of tiles, the run invariant, agreement between offers and validation |
| `GameLaws` | sorted hands, well-formed melds, accepted requests, turns, time limits and ready hands |
| `Misnaming`, `StaleOffers` | two games from the deal on: one loses a tile to a kong, one goes on offering calls that are refused |
| `SharedStorage`, `SharedGame`, `SharedConservation` | the hands as the dealer really hands them out, whole games on them, and exactly when an action conserves the tiles |
| `Agendas`, `TimeWheel`, `WheelInterleaving` | the timing wheel, against a plain map of deadlines and in all interleavings of its locked halves |
| `Framing` | the five-byte frame header and the two receive loops |
| `Decimals`, `Bits`, `Snowflake` | numerals, bit fields and the id generator |
| `Connections`, `Batcher` | the connection manager and the message batcher |
| `ConversationKeys`, `Conversations`, `ConversationHistory`, `ConversationFields` | unread counts and the other fields of a conversation, their index and their keys |

What the proofs say about the code, beyond what its names suggest:

- **Hand recognition is exact.** The search returns true for precisely the multisets that split into
  triplets and runs, so `CanWin` is precisely "a pair and four melds, or seven different pairs, out of
  fourteen tiles". The test that closes the seven-pairs check rules out every quad, so seven pairs with a
  quad are never recognised, and the single wait never is either.
- **Conservation has a hypothesis and an exception.** `Game` and `Engines` give every hand storage of its
  own. Then every accepted action conserves the tiles if and only if an exposed kong names the discard it
  claims: the kong is validated against the last discard but executed on the tile it names, and
  `Misnaming.MisnamedKong` is a game that loses a tile so. The dealer, however, hands out sub-slices of one
  array with spare capacity. `SharedGame` plays whole games on these slices, sorting and removing in place,
  and proves that they are the games of `Game` as long as every draw finds room behind the hand.
  `SharedConservation.SharedConservesIff` gives the exact condition for any action as long as the hands are
  separate, which by `SharedStorage.StaysSeparateIff` they are up to the first draw without room;
  `SharedConservation.FirstDrawLosesATile` is a game that loses a tile at its first draw.
- **Offers can be stale.** After a discard the judge's result agrees exactly with the calls that would be
  accepted, but the table keeps its old offers when there are no new ones. `GameRuns.PendingAgreesIff` says
  exactly when the open offers agree, and `StaleOffers.StaleOffer` is a game in which they do not.
- **Games do not end.** Executing an action has no case for a win or for robbing a kong, so both are always
  refused after validation, `handleWin` is never reached and no reachable table is over. Patterns and
  settlement are therefore modelled on their own.
- **The Taihu deck has no flowers.** Its comment promises eight flower tiles that the code does not add; the
  code is followed, and flower counts stay zero in every game. Flower replacement is proved for decks
  with flowers all the same.
- **A removal from the timing wheel aims at a deadline, not at an id.** The original delay finds the entry
  only before the next tick. With the locks released between reading the slot and using it, an entry comes
  out early exactly if its delay is sixty and a tick's advance and drain enclose both halves of its addition.
- **Snowflake ids increase exactly as long as no generation starts with a reading that stepped back**; what
  the clock says while the node waits does no harm. Ids of different nodes never collide, whatever the clocks.
- **A frame header holds 32 bits of length**, so the round trip holds exactly for shorter bodies. The
  documentation describes a two-byte frame type; the code writes one byte and is followed.
- **The client waits for a request.** A waiting authentication is resolved by a frame of type 2, which the
  comment beside the test calls a response but both sides' enumerations call a request; the server answers
  with types 3 and 4, which never resolve it. The code is followed.
- **Numerals.** The smallest 64-bit integer is printed as a lone minus sign; every other one parses back.

Conventions: a slice whose elements change in place is an array and the length of the slice. Clock readings,
the shuffled deck, the order in which a `select` or a map iteration proceeds and the current time are
parameters. The library sort is modelled by insertion sort, and `SortedIsUnique` makes the choice
immaterial. Values that a Go program keeps in 8 or 64 bits wrap around in the model where they can
(`IsSequence`, the id's shifts, the smallest integer's negation). Discards and melds have storage of
their own in the code, so only the hands and the deck are slices in `SharedGame`.

## Model

| member | source | states |
|---|---|---|
| `Tiles.SortTiles` | project/logic-go/internal/game/mahjong/core/tile.go:6-13 | the first n tiles become the sorted list of themselves, the rest of the storage is untouched |
| `Tiles.SortedIsUnique` | project/logic-go/internal/game/mahjong/core/tile.go:6-13 | two sorted lists with the same tiles are equal, so any sort leaves what the modelled one leaves |
| `Tiles.CountTile` | project/logic-go/internal/game/mahjong/core/tile.go:16-24 | the multiplicity of the tile |
| `Tiles.RemoveTile` | project/logic-go/internal/game/mahjong/core/tile.go:27-34 | the first match is gone, later tiles have moved up, an absent tile changes nothing |
| `Tiles.ContainsTile` | project/logic-go/internal/game/mahjong/core/tile.go:48-55 | true exactly when the tile occurs |
| `Tiles.ContainsTiles` | project/logic-go/internal/game/mahjong/core/tile.go:58-69 | true exactly when the targets are a sub-multiset of the hand |
| `Tiles.HoldsIsInclusion` | project/logic-go/internal/game/mahjong/core/tile.go:58-69 | finding and striking out target after target succeeds exactly on sub-multisets |
| `Tiles.CloneTiles` | project/logic-go/internal/game/mahjong/core/tile.go:72-76 | an equal list with storage of its own |
| `Tiles.IsSequence` | project/logic-go/internal/game/mahjong/core/tile.go:88-108 | true exactly for the permutations of three consecutive values of one numbered suit, 8-bit wrap-around included |
| `Tiles.GetUniqueTiles` | project/logic-go/internal/game/mahjong/core/tile.go:135-146 | every kind of the list, each once |
| `Melds.SplitsBySmallest` | project/logic-go/internal/game/mahjong/htmajong/winning.go:113-153 | exchange on the smallest tile: a multiset splits into melds exactly when taking a triplet of its smallest tile or a run starting there leaves one that splits |
| `Winning.MianZiStep` | project/logic-go/internal/game/mahjong/htmajong/winning.go:122-152 | on a sorted slice the two attempts of the search together decide whether the tiles split |
| `Winning.CheckMianZi` | project/logic-go/internal/game/mahjong/htmajong/winning.go:113-153 | true exactly when the tiles split into triplets and numbered runs; the slice may come back sorted and nothing else changes |
| `Winning.TryTriplet` | project/logic-go/internal/game/mahjong/htmajong/winning.go:125-134 | the first attempt decides whether three of the first tile leave a rest that splits |
| `Winning.TryRun` | project/logic-go/internal/game/mahjong/htmajong/winning.go:136-150 | the second attempt decides whether a run from the first tile leaves a rest that splits |
| `Melds.PairLeavesMelds` | project/logic-go/internal/game/mahjong/htmajong/winning.go:83-110 | fourteen tiles are a pair and four melds exactly when some pair leaves tiles that split |
| `Winning.EyesDecide` | project/logic-go/internal/game/mahjong/htmajong/winning.go:83-110 | trying each kind once as the pair misses no decomposition |
| `Winning.CheckBasicWin` | project/logic-go/internal/game/mahjong/htmajong/winning.go:83-110 | true exactly for fourteen tiles made of a pair and four melds |
| `Winning.SevenPairsTest` | project/logic-go/internal/game/mahjong/htmajong/winning.go:161-177 | counts of two or four over fourteen tiles pass the closing test exactly for seven different pairs |
| `Winning.CheckSevenPairs` | project/logic-go/internal/game/mahjong/htmajong/winning.go:156-178 | true exactly for seven different kinds, each twice |
| `Winning.NoDragonPairs` | project/logic-go/internal/game/mahjong/htmajong/winning.go:181-200 | no hand is seven pairs with a quad |
| `Winning.CheckLongQiDui` | project/logic-go/internal/game/mahjong/htmajong/winning.go:181-200 | decides the seven pairs with a quad, of which there are none |
| `Melds.PairLeavesTriplets` | project/logic-go/internal/game/mahjong/htmajong/winning.go:219-245 | a pair and four triplets, in terms of counts modulo three after taking the pair |
| `Winning.CheckTripletHand` | project/logic-go/internal/game/mahjong/htmajong/winning.go:219-245 | true exactly for fourteen tiles made of a pair and four triplets |
| `Winning.CheckAllTriplets` | project/logic-go/internal/game/mahjong/htmajong/winning.go:248-271 | true exactly when every count is a multiple of three |
| `Winning.CanWin` | project/logic-go/internal/game/mahjong/htmajong/winning.go:16-25 | true exactly when hand and new tile are fourteen tiles that form a pair and four melds or seven different pairs |
| `Winning.LoneLoses` | project/logic-go/internal/game/mahjong/htmajong/winning.go:83-178 | no hand wins with a tile that has neither a second copy nor a tile of its suit within two values |
| `Winning.TripletHandWins` | project/logic-go/internal/game/mahjong/thmahjong/winning.go:220-243 | a hand of triplets is a basic win and never seven pairs |
| `Patterns.CheckQingYiSe` | project/logic-go/internal/game/mahjong/htmajong/winning.go:203-216 | true exactly when all tiles share a suit |
| `Patterns.CheckNumberedQingYiSe` | project/logic-go/internal/game/mahjong/thmahjong/winning.go:199-217 | true exactly when all tiles share a numbered suit |
| `Patterns.CheckQueYiMen` | project/logic-go/internal/game/mahjong/htmajong/winning.go:274-285 | true exactly when two numbered suits occur |
| `Patterns.CheckDaDiaoChe` | project/logic-go/internal/game/mahjong/thmahjong/winning.go:270-277 | decides the single wait |
| `Patterns.NobodyWaitsSingly` | project/logic-go/internal/game/mahjong/thmahjong/winning.go:270-277 | no hand is a single wait as the code tests it |
| `Patterns.HuitongWinPatterns` | project/logic-go/internal/game/mahjong/htmajong/winning.go:28-71 | the patterns of the player's hand by their meaning, with the ready hand looked up in the player's state; the plain win when there is no other |
| `Patterns.CheckWuHuaGuoZiMo` | project/logic-go/internal/game/mahjong/thmahjong/winning.go:34-45 | true exactly when the last action was no discard and the player has no flowers, or none on record |
| `Patterns.TaihuWinPatterns` | project/logic-go/internal/game/mahjong/thmahjong/winning.go:26-75 | the same for the Taihu rules, with the flowerless self-draw looked up |
| `Patterns.ExclusivePatterns` | project/logic-go/internal/game/mahjong/htmajong/winning.go:28-71 | one suit excludes a missing suit, triplets exclude seven pairs, pairs with a quad never occur |
| `Patterns.HuitongListedIff` | project/logic-go/internal/game/mahjong/htmajong/winning.go:28-71 | each pattern is listed, with its score, exactly when the hand has its shape, and the plain win exactly when nothing else is |
| `Patterns.TaihuListedIff` | project/logic-go/internal/game/mahjong/thmahjong/winning.go:26-75 | the same for the Taihu rules |
| `Patterns.NeverListed` | project/logic-go/internal/game/mahjong/thmahjong/winning.go:26-75 | neither rule set ever lists seven pairs with a quad, nor Taihu the single wait |
| `Patterns.HuitongTotal` | project/logic-go/internal/game/mahjong/htmajong/winning.go:28-71 | the patterns of every hand total between 1 and 21, and at most 16 unless declared ready |
| `Patterns.HuitongMaximum` | project/logic-go/internal/game/mahjong/htmajong/winning.go:28-71 | a winning hand reaches 21 |
| `Patterns.TaihuTotal` | project/logic-go/internal/game/mahjong/thmahjong/winning.go:26-75 | the Taihu patterns of every hand total between 1 and 26, and at most 16 without the flowerless self-draw |
| `Patterns.TaihuMaximum` | project/logic-go/internal/game/mahjong/thmahjong/winning.go:26-75 | a winning hand reaches 26 |
| `Patterns.CalculateScore` | project/logic-go/internal/game/mahjong/htmajong/winning.go:74-80 | the sum of the scores |
| `Patterns.HasTingPattern` | project/logic-go/internal/game/mahjong/htmajong/settlement.go:93-100 | true exactly when the ready hand is listed |
| `Patterns.Transfers` | project/logic-go/internal/game/mahjong/htmajong/settlement.go:54-79 | after a self-draw each payer pays in seat order, otherwise the loser alone, and nobody when there is none; with the reason given |
| `Patterns.PayersAre` | project/logic-go/internal/game/mahjong/htmajong/settlement.go:54-79 | the payers of a self-draw are exactly the players other than the winner |
| `Patterns.Calculate` | project/logic-go/internal/game/mahjong/htmajong/settlement.go:16-90 | base times patterns, doubled for self-draw, ready hand, robbed kong and dealer, with all the fields of the settlement and its transfers |
| `Patterns.ScoreDoubles` | project/logic-go/internal/game/mahjong/htmajong/settlement.go:29-52 | a self-draw, a robbed kong, a listed ready hand and the dealer's seat each double the score, the other kinds of win do not |
| `Patterns.ScoreBound` | project/logic-go/internal/game/mahjong/htmajong/settlement.go:29-52 | with the patterns of any hand the score lies between the base in force and 168 times it |
| `Patterns.ScoreBoundMet` | project/logic-go/internal/game/mahjong/htmajong/settlement.go:29-52 | the bound of 168 is reached |
| `Engines.Engine.FindPlayer` | project/logic-go/internal/game/mahjong/core/types.go:229-236 | the first seat with the id, or -1 |
| `Engines.CanChiNow` | project/logic-go/internal/game/mahjong/thmahjong/judge.go:90-125 | the three windows around the tile, as a condition on the hand |
| `Engines.GetTaskPriority` | project/logic-go/internal/game/mahjong/thmahjong/judge.go:128-145 | the highest rank among the answers |
| `Engines.Engine.CheckChi` | project/logic-go/internal/game/mahjong/thmahjong/actions.go:96-146 | the refusals of a chi, in order, with containment counted by multiplicity |
| `Engines.Engine.CheckKong` | project/logic-go/internal/game/mahjong/htmajong/actions.go:103-128 | an exposed kong is checked against the last discard, a concealed one against the named tile |
| `Engines.Engine.ValidateAction` | project/logic-go/internal/game/mahjong/thmahjong/actions.go:18-44 | which error, or none, for every action of either rule set |
| `Engines.Engine.TakeFromDeck` | project/logic-go/internal/game/mahjong/thmahjong/actions.go:229-246 | the first tile of the deck enters the hand, which has storage of its own and is sorted, and Taihu replaces flowers |
| `Engines.Engine.ReplaceFlowerAutomatically` | project/logic-go/internal/game/mahjong/thmahjong/actions.go:377-398 | the mutual recursion over the deck computes the specified replacement and stops when the deck is empty |
| `Engines.Engine.PerformPong` | project/logic-go/internal/game/mahjong/htmajong/actions.go:224-248 | two tiles and the claimed discard become a meld |
| `Engines.Engine.PerformChi` | project/logic-go/internal/game/mahjong/thmahjong/actions.go:286-312 | the tiles other than the claimed one leave the hand, the run is laid open, the discard is taken |
| `Engines.Engine.PerformKong` | project/logic-go/internal/game/mahjong/thmahjong/actions.go:315-364 | the named tile is taken from the hand, four are laid open, a discard is taken when exposed, a tile is drawn |
| `Engines.Engine.ExecuteAction` | project/logic-go/internal/game/mahjong/htmajong/actions.go:167-189 | the whole new table, or an error and an unchanged table |
| `Engines.Engine.AnswersOf` | project/logic-go/internal/game/mahjong/thmahjong/judge.go:42-72 | what one other player may answer to a discard or kong |
| `Engines.Engine.JudgeTasks` | project/logic-go/internal/game/mahjong/htmajong/judge.go:22-84 | the offers to all other players in seat order, with priority |
| `Engines.Engine.HandleAction` | project/logic-go/internal/game/mahjong/core/engine.go:101-143 | an error leaves the table unchanged; otherwise validated, executed, and either won or judged and recorded |
| `Engines.Engine.JudgeAndRecord` | project/logic-go/internal/game/mahjong/core/engine.go:122-140 | offers or the next seat, and the action becomes the last one |
| `Engines.Engine.ProcessTaskTimeout` | project/logic-go/internal/game/mahjong/core/engine.go:215-232 | one expired offer clears them all and passes the turn on |
| `Engines.Engine.constructor` | project/logic-go/internal/game/mahjong/core/engine.go:57-91 | the dealt table, with hands in storage of their own |
| `Engines.Start` | project/logic-go/internal/game/mahjong/core/engine.go:42-98 | a wrong number of players is refused; otherwise the table dealt from any shuffle of the deck, with hands in storage of their own, on which the run invariant holds |
| `Decks.GenerateDeck` | project/logic-go/internal/game/mahjong/htmajong/deck.go:23-41 | the tiles in the order of the loops: four copies of every kind of the rule set and nothing else |
| `Decks.OrderedDeckHolds` | project/logic-go/internal/game/mahjong/thmahjong/deck.go:23-59 | 108 or 136 tiles, four copies of every kind |
| `Decks.AddSuit` | project/logic-go/internal/game/mahjong/thmahjong/deck.go:28-37 | four copies of each value of the suit are added |
| `GameProofs.DrawOneKeeps` | project/logic-go/internal/game/mahjong/thmahjong/actions.go:229-246 | drawing with flower replacement keeps hand plus deck plus flower count, and a flower-free hand flower-free |
| `GameProofs.AutoFlowerKeeps` | project/logic-go/internal/game/mahjong/thmahjong/actions.go:377-398 | replacement keeps hand plus deck plus flower count and rids a hand of its single flower |
| `GameProofs.DrawOneCounts` | project/logic-go/internal/game/mahjong/thmahjong/actions.go:229-246 | every copy of a kind only moves from deck to hand, unless it is a flower that is replaced |
| `GameProofs.PongConserves` | project/logic-go/internal/game/mahjong/thmahjong/actions.go:261-283 | a pong conserves every kind |
| `GameProofs.ChiConserves` | project/logic-go/internal/game/mahjong/thmahjong/actions.go:286-312 | a chi conserves every kind |
| `GameProofs.KongConservesIff` | project/logic-go/internal/game/mahjong/htmajong/actions.go:251-292 | an accepted kong conserves every kind exactly when an exposed one names the discard it claims; otherwise just that discard is lost |
| `GameRuns.InitialCounts` | project/logic-go/internal/game/mahjong/htmajong/deck.go:51-70 | the deal puts every tile into play once |
| `GameRuns.InitialInv` | project/logic-go/internal/game/mahjong/core/engine.go:42-98 | a fresh game satisfies the run invariant |
| `GameRuns.HandleKeepsInv` | project/logic-go/internal/game/mahjong/core/engine.go:101-143 | so does the table after every accepted action: a last discard is on top of its player's discards, all tiles are deck tiles, the round is one and the game is on |
| `GameRuns.RunKeepsInv` | project/logic-go/internal/game/mahjong/core/engine.go:101-143 | and every table of every run of actions and timeouts |
| `GameRuns.ExecuteConserves` | project/logic-go/internal/game/mahjong/thmahjong/actions.go:202-226 | for hands with storage of their own: on any table with the last discard on top an accepted action conserves every kind that flower replacement does not set aside |
| `GameRuns.ConservesIff` | project/logic-go/internal/game/mahjong/htmajong/actions.go:110-123 | for hands with storage of their own: an accepted action conserves every tile if and only if an exposed kong among them names the claimed discard, which is otherwise lost |
| `Misnaming.MisnamedKong` | project/logic-go/internal/game/mahjong/htmajong/actions.go:251-292 | a game from the deal on, with the deck in its generated order and four players, in which an accepted kong leaves three of four sevens |
| `GameRuns.RunConserves` | project/logic-go/internal/game/mahjong/core/engine.go:101-143 | for hands with storage of their own: runs whose exposed kongs name their discards conserve every kind |
| `GameRuns.GameConserves` | project/logic-go/internal/game/mahjong/core/engine.go:42-143 | for hands with storage of their own, which the dealt slices have only while draws find room: every table of such a run from the deal on holds exactly the deck that was dealt |
| `GameRuns.ExecuteFailsIff` | project/logic-go/internal/game/mahjong/htmajong/actions.go:167-189 | a validated action fails to execute exactly when it is a win or the robbing of a kong |
| `GameRuns.NeverOver` | project/logic-go/internal/game/mahjong/core/engine.go:116-120 | although an executed win would end the game, no reachable table is over and every win is refused |
| `GameRuns.TaihuNeverFlowers` | project/logic-go/internal/game/mahjong/thmahjong/deck.go:23-59 | in every Taihu game the flower counts stay zero, every flower action is refused and kong counts equal the kongs laid open |
| `GameLaws.GameIsTidy` | project/logic-go/internal/game/mahjong/core/engine.go:42-143 | on every table of every game the hands are sorted, every open meld is of its kind, and the deck is the dealt one without a drawn front |
| `GameLaws.DealtHands` | project/logic-go/internal/game/mahjong/htmajong/deck.go:51-70 | fourteen tiles for the dealer and thirteen for everybody else, and the dealer begins |
| `GameLaws.AcceptedIff` | project/logic-go/internal/game/mahjong/htmajong/actions.go:18-189 | which requests other than a chi are accepted and carried out |
| `GameLaws.OnlyCurrentActs` | project/logic-go/internal/game/mahjong/htmajong/actions.go:47-79 | accepted draws and discards come from the current player, and a discard is a tile of the hand |
| `GameLaws.TurnMovesIff` | project/logic-go/internal/game/mahjong/core/engine.go:122-137 | after an accepted discard the turn moves on exactly when no other player may answer it |
| `GameLaws.OnlyPassMovesOn` | project/logic-go/internal/game/mahjong/core/engine.go:132-137 | of all other accepted actions only a pass moves the turn on |
| `GameLaws.ExpireIff` | project/logic-go/internal/game/mahjong/core/engine.go:215-232 | a check of the time changes something exactly when an offer is overdue, and leaves none overdue |
| `GameLaws.GameReadyIff` | project/logic-go/internal/game/mahjong/htmajong/actions.go:137-154 | a player is ready exactly after an accepted declaration of that player in the game |
| `GameRuns.TasksAre` | project/logic-go/internal/game/mahjong/thmahjong/judge.go:36-86 | the tasks are exactly those of the other players that have some answer |
| `GameRuns.PriorityIsBest` | project/logic-go/internal/game/mahjong/thmahjong/judge.go:128-145 | the priority is the rank of the best answer, and 100 exactly when a win is among them |
| `GameRuns.PriorityIs` | project/logic-go/internal/game/mahjong/thmahjong/judge.go:128-145 | 100 for a win, else 90 for robbing under Huitong, 80 for a kong, 70 for a pong, 60 for a chi under Taihu |
| `GameRuns.OfferedIff` | project/logic-go/internal/game/mahjong/thmahjong/judge.go:22-87 | a player is offered an answer exactly when it is among that player's answers |
| `GameRuns.OffersAre` | project/logic-go/internal/game/mahjong/thmahjong/judge.go:36-87 | after a discard or kong of a tile another player is offered a win exactly when hand and tile win, a kong or pong of a discard exactly with three or two copies, a chi exactly when next with a window, robbing exactly a Huitong kong that wins |
| `GameRuns.TasksCarry` | project/logic-go/internal/game/mahjong/htmajong/judge.go:22-84 | nobody is offered anything after other actions or without a tile, nor to the own action; tasks carry the tile, the time limit and their priority |
| `GameRuns.ChiIff` | project/logic-go/internal/game/mahjong/thmahjong/judge.go:90-125 | the three windows hold exactly when some chi of that player would be accepted |
| `GameRuns.ChiAccepted` | project/logic-go/internal/game/mahjong/thmahjong/actions.go:96-146 | a chi of the next player is accepted exactly when its tiles form a run with the discard and the rest is in the hand |
| `GameRuns.WindowsAre` | project/logic-go/internal/game/mahjong/thmahjong/judge.go:97-122 | the windows are the runs around the tile that start between 1 and 7 |
| `GameRuns.OfferedIffAcceptable` | project/logic-go/internal/game/mahjong/thmahjong/judge.go:50-72 | after an accepted discard the judge's result offers another player pong, kong or chi exactly when some such call would be accepted |
| `GameRuns.PendingAgreesIff` | project/logic-go/internal/game/mahjong/core/engine.go:122-140 | the open offers of the table agree with the calls that would be accepted if and only if the discard brings new offers or no old offer names a call |
| `StaleOffers.StaleOffer` | project/logic-go/internal/game/mahjong/core/engine.go:122-140 | a game from the deal on in which the table offers a pong and a kong that are refused, and the expiry of the offer takes a player's turn |
| `SharedStorage.SharedTable.constructor` | project/logic-go/internal/game/mahjong/htmajong/deck.go:51-70 | the hands are slices of the one array |
| `SharedStorage.SharedTable.Draw` | project/logic-go/internal/game/mahjong/htmajong/actions.go:192-206 | appending in place writes behind the hand, whatever lies there |
| `SharedStorage.SharedTable.Remove` | project/logic-go/internal/game/mahjong/core/tile.go:27-34 | the later tiles of the hand move up in place and the slice gives up its last place |
| `SharedStorage.SharedTable.SortAll` | project/logic-go/internal/game/mahjong/core/engine.go:73-77 | every hand is sorted within its slice |
| `SharedStorage.RemoveKeepsOthers` | project/logic-go/internal/game/mahjong/core/tile.go:27-34 | removing in place touches no other hand and leaves the hands separate |
| `SharedStorage.DrawKeepsOthers` | project/logic-go/internal/game/mahjong/htmajong/actions.go:192-206 | with room behind the hand, a draw gives it its tiles sorted with the new one and touches no other hand |
| `SharedStorage.DrawConservesIff` | project/logic-go/internal/game/mahjong/htmajong/actions.go:192-206 | among separate hands a draw conserves every tile if and only if no other hand owns the place behind or the tile there is the largest of the drawing hand |
| `SharedStorage.CrampedDraw` | project/logic-go/internal/game/mahjong/htmajong/actions.go:192-206 | otherwise that tile is exchanged for the largest tile of the drawing hand |
| `SharedStorage.StaysSeparateIff` | project/logic-go/internal/game/mahjong/htmajong/actions.go:192-206 | the hands stay separate exactly when there was room |
| `SharedStorage.FirstDraw` | project/logic-go/internal/game/mahjong/htmajong/deck.go:51-70 | right after the deal only the last seat draws safely, the others exactly when the next hand starts with their largest tile |
| `SharedStorage.TileLost` | project/logic-go/internal/game/mahjong/htmajong/deck.go:62 | with the deck in its generated order and four players, the dealer's draw loses a tile of the next player |
| `SharedGame.InitialRefines` | project/logic-go/internal/game/mahjong/core/engine.go:69-77 | the dealt slices, sorted in place, are seen as the dealt table and are separate |
| `SharedGame.ExecuteRefines` | project/logic-go/internal/game/mahjong/thmahjong/actions.go:202-226 | with room where it draws, an accepted action on the slices is seen as the same action on hands of their own, and the hands stay separate |
| `SharedGame.HandleRefines` | project/logic-go/internal/game/mahjong/core/engine.go:101-143 | so is a handled action, with the same error or the same new table |
| `SharedGame.RunRefines` | project/logic-go/internal/game/mahjong/core/engine.go:101-143 | and every run of actions and timeouts |
| `SharedGame.NamedKongHasRoom` | project/logic-go/internal/game/mahjong/thmahjong/actions.go:315-364 | an accepted kong that names its discard always has room for its draw |
| `SharedGame.SharedGameConserves` | project/logic-go/internal/game/mahjong/htmajong/deck.go:51-70 | from the dealt slices on, every table of a run whose accepted draws from the deck find room and whose exposed kongs name their discards holds exactly the deck that was dealt |
| `SharedConservation.SharedConservesIff` | project/logic-go/internal/game/mahjong/htmajong/actions.go:167-206 | among separate hands, an accepted action on the dealt slices conserves every tile if and only if an exposed kong names the claimed discard and a draw from the deck finds room or happens to put the tile in its way there again |
| `SharedConservation.FirstDrawLosesATile` | project/logic-go/internal/game/mahjong/htmajong/actions.go:192-206 | in a game of four with the deck in its generated order, handling the dealer's first draw leaves three of four copies of a kind |
| `TimeWheel.Slot.AddTask` | project/logic-go/internal/task/slot.go:19-24 | the slot's map gains or replaces the entry under the id |
| `TimeWheel.Slot.RemoveTask` | project/logic-go/internal/task/slot.go:27-36 | the entry is gone; true exactly when there was one |
| `TimeWheel.Slot.GetAndClear` | project/logic-go/internal/task/slot.go:39-56 | every entry once, and an empty slot |
| `TimeWheel.Wheel.constructor` | project/logic-go/internal/task/wheel.go:22-34 | an empty wheel |
| `TimeWheel.Wheel.AddTask` | project/logic-go/internal/task/wheel.go:37-51 | refines setting the deadline (id, now + delay) in a plain map of deadlines, delays out of range counting as 1 |
| `TimeWheel.Wheel.RemoveTask` | project/logic-go/internal/task/wheel.go:54-66 | refines deleting exactly the entry due that many ticks from now; true exactly when there was one |
| `TimeWheel.Wheel.Tick` | project/logic-go/internal/task/wheel.go:69-78 | returns exactly the entries due now, each once |
| `TimeWheel.Wheel.GetTotalTaskCount` | project/logic-go/internal/task/wheel.go:107-113 | the number of pending deadlines |
| `Agendas.FiresIff` | project/logic-go/internal/task/wheel.go:37-78 | after any history an id's entry fires at the next tick exactly when the last operation aimed at that id and tick was its addition |
| `Agendas.FiresAtDelay` | project/logic-go/internal/task/wheel.go:37-78 | an entry that is not removed or replaced fires at the tick that its delay aims at |
| `Agendas.FiresAfterTicks` | project/logic-go/internal/task/wheel.go:37-78 | with a delay of 1 to 60 it fires after one tick less than the delay, with any other at the next tick |
| `Agendas.OnlyAtDelay` | project/logic-go/internal/task/wheel.go:37-78 | and makes no difference at any other tick |
| `Agendas.RemoveHitsOnlyAtOnce` | project/logic-go/internal/task/wheel.go:54-66 | removing with the original delay works before the first tick and misses after it |
| `Agendas.RemoveLookup` | project/logic-go/internal/task/wheel.go:54-66 | a removal takes away what its delay aims at under the id and nothing else |
| `Agendas.AddAgrees` | project/logic-go/internal/task/wheel.go:42-48 | sixty slots represent the deadlines: adding keeps the correspondence |
| `Agendas.TickAgrees` | project/logic-go/internal/task/wheel.go:69-77 | so does advancing and draining |
| `WheelInterleaving.RunKeeps` | project/logic-go/internal/task/wheel.go:37-78 | the invariant of every interleaving of the halves of additions, removals and ticks |
| `WheelInterleaving.DrainedWhenDue` | project/logic-go/internal/task/wheel.go:42-77 | for every delay: early exactly for a delay of 60 read and inserted within one tick, on time exactly when inserted before that drain and no such delay, and otherwise late by a multiple of 60 |
| `WheelInterleaving.DrainedAsAsked` | project/logic-go/internal/task/wheel.go:42-77 | every drained entry was asked for by a read of the run whose own delay aims at the entry's deadline |
| `WheelInterleaving.NeverEarly` | project/logic-go/internal/task/wheel.go:42-77 | so a delay below 60 is never early |
| `WheelInterleaving.FirstDrainIs` | project/logic-go/internal/task/wheel.go:42-77 | the same two equivalences for the first drain after an insertion |
| `WheelInterleaving.InsertLocates` | project/logic-go/internal/task/wheel.go:47-48 | an insertion puts its entry under way to that drain |
| `WheelInterleaving.DrainedOnce` | project/logic-go/internal/task/wheel.go:42-77 | left alone, it stays in its slot up to that drain and is in that drain's output from then on |
| `WheelInterleaving.SixtyTooEarly` | project/logic-go/internal/task/wheel.go:42-77 | an interleaving that drains a delay of 60 sixty ticks early |
| `WheelInterleaving.RemovesExactly` | project/logic-go/internal/task/wheel.go:59-65 | a removal racing with ticks takes away an entry exactly if the ids agree and the entry's drain is the next that the removal aims at; all others stay |
| `WheelInterleaving.RemovesDeadline` | project/logic-go/internal/task/wheel.go:59-65 | with both halves in time that is exactly the entry with the removal's deadline |
| `WheelInterleaving.LateRemoval` | project/logic-go/internal/task/wheel.go:59-65 | a removal that comes after the drain it aimed at can only take away an entry drained later by a multiple of 60 |
| `Framing.BuildFrame` | project/desktop-web/src/services/protocol/IMProtocol.ts:46-58 | the bytes of the frame: length modulo 2^32, type modulo 256, body |
| `Framing.PutUint32` | project/access-go/internal/handler/downstream_handler.go:148 | the first four bytes become the big-endian length, the others stay |
| `Framing.BuildResponseFrame` | project/access-go/internal/handler/downstream_handler.go:146-151 | the bytes of a response frame |
| `Framing.ParseFrameHeader` | project/desktop-web/src/services/protocol/IMProtocol.ts:63-72 | at the front of any built frame shorter than 2^32 it finds length and type, whatever it finds prints as the first five bytes, and it finds nothing in fewer than five |
| `Framing.HeaderRoundTrip` | project/desktop-web/src/services/protocol/IMProtocol.ts:46-72 | parsing a built header gives the length modulo 2^32 and the type, and the body follows |
| `Framing.BigEndianHorner` | project/desktop-web/src/services/transport/WebTransportManager.ts:250 | the most significant byte of the length comes first |
| `Framing.HandleIncomingStream` | project/desktop-web/src/services/transport/WebTransportManager.ts:227-291 | dispatches exactly the complete frames of the joined chunks, warns exactly when at least a header is left over, and resolves a waiting authentication exactly when a frame of type 2, a request, is among them |
| `Framing.ServerNeverResolves` | project/desktop-web/src/services/transport/WebTransportManager.ts:276-282 | so no stream of acknowledgements and responses, however chunked and cut off, resolves a waiting authentication |
| `Framing.HandleStream` | project/access-go/internal/handler/handler.go:67-119 | receives exactly the complete frames of the byte stream and submits them in order, without those that the pool refuses |
| `Framing.AllTaken` | project/access-go/internal/handler/handler.go:108-117 | a pool that refuses none gets them all |
| `Framing.RefusedIsDropped` | project/access-go/internal/handler/handler.go:114-117 | a frame that is refused is dropped |
| `Framing.TakenInParts` | project/access-go/internal/handler/handler.go:76-118 | what becomes of later frames does not depend on earlier ones |
| `Framing.ParseAll` | project/desktop-web/src/services/transport/WebTransportManager.ts:235-286 | any list of frames is recovered in order, whatever bytes follow |
| `Framing.AnyChunking` | project/desktop-web/src/services/transport/WebTransportManager.ts:227-291 | frames in any chunking with the last one cut off: exactly the whole ones are recovered |
| `Framing.RoundTripIff` | project/desktop-web/src/services/protocol/IMProtocol.ts:46-58 | a frame survives the round trip if and only if its body is shorter than 2^32 |
| `Snowflake.Node.constructor` | project/shared/snowflake/snowflake.go:47-55 | an id out of range becomes 1 |
| `Snowflake.Node.Generate` | project/shared/snowflake/snowflake.go:58-83 | the id of the next state of the node under the clock readings, waiting included |
| `Snowflake.Decode` | project/shared/snowflake/snowflake.go:78-80 | shifts and masks recover time, node and sequence, and the id fits in 64 bits |
| `Snowflake.NodeStays` | project/shared/snowflake/snowflake.go:78-80 | node and sequence are recovered whatever the clock says |
| `Snowflake.AdvancesIff` | project/shared/snowflake/snowflake.go:64-76 | one generation moves on in time, or within a millisecond in sequence, if and only if its first reading has not stepped back |
| `Snowflake.Capacity` | project/shared/snowflake/snowflake.go:64-76 | readings of one millisecond, up to 4096 of them, give one id each with the sequence numbers from 0 on |
| `Snowflake.AfterTheLast` | project/shared/snowflake/snowflake.go:64-71 | the next id waits for the first later reading and takes the sequence number 0 |
| `Snowflake.IdsIncreaseIff` | project/shared/snowflake/snowflake.go:58-83 | the ids of a run strictly increase if and only if no generation after the first starts with a reading that stepped back |
| `Snowflake.IdsIncrease` | project/shared/snowflake/snowflake.go:58-83 | so they increase with a clock that never steps back |
| `Snowflake.StepBackRepeats` | project/shared/snowflake/snowflake.go:72-76 | a clock that steps back by one millisecond and recovers makes a fresh node repeat an id |
| `Snowflake.IdsDecode` | project/shared/snowflake/snowflake.go:78-80 | the ids of any run decode to time, node and sequence |
| `Snowflake.NodesNeverCollide` | project/shared/snowflake/snowflake.go:58-83 | ids of nodes with different node ids never coincide, whatever their clocks say |
| `Bits.OrDisjoint` | project/shared/snowflake/snowflake.go:78-80 | or-ing bits below a shifted number adds them |
| `Bits.AndMask` | project/shared/snowflake/snowflake.go:65 | masking the low bits is the remainder, for negative numbers too |
| `Decimals.WriteDigits` | project/shared/snowflake/snowflake.go:97-104 | the digits, written backwards within the twenty-place buffer |
| `Decimals.Int64ToString` | project/shared/snowflake/snowflake.go:86-111 | the decimal numeral; a lone minus sign for the smallest number |
| `Decimals.PrintedParsesIff` | project/shared/snowflake/snowflake.go:86-111 | the output parses back exactly when the number is not the smallest one |
| `Decimals.PrintedHasNoLeadingZero` | project/shared/snowflake/snowflake.go:86-111 | no leading zeros |
| `Connections.Connection.BindSession` | project/access-go/internal/connection/connection.go:80-87 | the session's user and platform are set |
| `Connections.Manager.Add` | project/access-go/internal/connection/manager.go:24-28 | one more live connection |
| `Connections.Manager.Remove` | project/access-go/internal/connection/manager.go:30-53 | the connection goes, and its binding exactly if it is still its own; no user keeps an empty map |
| `Connections.UnboundRemovesNothing` | project/access-go/internal/connection/manager.go:30-53 | removing a connection without a user or a platform gives up no binding |
| `Connections.Manager.BindUser` | project/access-go/internal/connection/manager.go:63-87 | the pair is bound to a live connection and the one bound before is returned |
| `Connections.Manager.GetByUserIDAndPlatform` | project/access-go/internal/connection/manager.go:107-117 | the bound connection or nil |
| `Connections.Manager.GetByUserID` | project/access-go/internal/connection/manager.go:90-104 | the bound connections of all the user's platforms |
| `Connections.SessionsAre` | project/access-go/internal/connection/manager.go:24-87 | over every disciplined history the live connections have the sessions they were bound with |
| `Connections.BoundIsLastLive` | project/access-go/internal/connection/manager.go:30-117 | over every disciplined history a pair is bound to the last connection bound to it if that one is not removed, else to none, so removing a replaced connection never unbinds its replacement |
| `Batcher.MessageBatcher.constructor` | project/logic-go/internal/service/message_batcher.go:41-58 | an empty batcher; a size that is not positive becomes 100 |
| `Batcher.MessageBatcher.SaveMessage` | project/logic-go/internal/service/message_batcher.go:78-97 | the message is enqueued when the channel has room |
| `Batcher.MessageBatcher.Worker` | project/logic-go/internal/service/message_batcher.go:117-153 | the loop follows the queue's steps in whatever order the select takes them |
| `Batcher.RunKeeps` | project/logic-go/internal/service/message_batcher.go:78-153 | in every run flushed batches, batch and channel are the accepted messages in order, flushes hold between one message and a full batch, and after the end exactly the channel is unflushed |
| `Batcher.MessageTakesOldest` | project/logic-go/internal/service/message_batcher.go:138-144 | a receive takes exactly the oldest waiting message and flushes exactly when that fills the batch |
| `Batcher.TakesOldestFirst` | project/logic-go/internal/service/message_batcher.go:117-153 | over a run exactly as many messages, the oldest accepted ones, have left the channel as receives found one waiting |
| `Batcher.ReceivesEmpty` | project/logic-go/internal/service/message_batcher.go:138-144 | as many receives as messages wait empty the channel |
| `Batcher.ChannelCapacity` | project/logic-go/internal/service/message_batcher.go:54 | the channel takes ten batches |
| `Batcher.NothingLinger` | project/logic-go/internal/service/message_batcher.go:126-150 | a tick and the end flush the whole batch |
| `ConversationKeys.MemberParses` | project/logic-go/internal/service/conversation.go:166-180 | parsing an index member recovers the conversation whose key the update used |
| `ConversationKeys.KeyInjective` | project/shared/redis/keys.go:36-46 | different users or conversations never share a key |
| `ConversationKeys.KeysApart` | project/shared/redis/keys.go:30-46 | no conversation key is an index key |
| `ConversationKeys.KeyShapes` | project/shared/redis/keys.go:32-56 | how the keys and members look |
| `Conversations.ConversationService.UpdateConversationForSender` | project/logic-go/internal/service/conversation.go:29-48 | the store after the update |
| `Conversations.ConversationService.UpdateConversationForReceiver` | project/logic-go/internal/service/conversation.go:51-71 | the same with one more unread message |
| `Conversations.ConversationService.UpdateConversationForGroupMembers` | project/logic-go/internal/service/conversation.go:74-92 | every member in turn, unread for all but the sender |
| `Conversations.ConversationService.MarkRead` | project/logic-go/internal/service/conversation.go:95-104 | read up to the message, nothing unread |
| `Conversations.ConversationService.GetTotalUnreadCount` | project/logic-go/internal/service/conversation.go:183-221 | the sum of the unread counts looked up for the parsed index members |
| `ConversationHistory.UnreadIsSinceRead` | project/logic-go/internal/service/conversation.go:51-104 | over every history the unread count is the number of messages received since the conversation was last marked read |
| `ConversationFields.FieldsAreHistory` | project/logic-go/internal/service/conversation.go:29-104 | over every history the read position is that of the last MarkRead, and the last message, its time and the score in the index are those of the last message that touched the conversation |
| `ConversationHistory.IndexHolds` | project/logic-go/internal/service/conversation.go:29-104 | every conversation with unread messages is in the user's index, whose members are proper |
| `ConversationHistory.TotalIsAllUnread` | project/logic-go/internal/service/conversation.go:183-221 | so the total is the number of unread messages in all of the user's conversations |

## Left out

- Hypotheses of the game theorems: the tiles dealt are tiles of the deck (`Fits`) and, where offers are compared with validation, the players' ids differ. `Initialize` fails outright for no players or more players than the deck can deal to; the model requires that this is not so.
- Scores and unread counts are unbounded integers: a score fits in 64 bits when 168 times the base does.
- `Engines.Engine.HandleAction`: an executed win, which never happens, would also store a settlement; `Patterns.Calculate` models the Huitong settlement on its own.
- `Engines.Engine.TakeFromDeck`: the hand has storage of its own, where the source appends into the shared array; `SharedStorage.SharedTable.Draw` and `SharedGame` do that.
- `Engines.Engine.constructor`: the same, where the source hands out sub-slices of the deck; `SharedStorage.SharedTable` and `SharedGame.InitialShared` do that.
- `Engines.Start`: the same, and the shuffled deck is a parameter.
- `GameRuns.ExecuteConserves`: about hands in storage of their own; `SharedConservation.SharedConservesIff` has the slices.
- `GameRuns.ConservesIff`: likewise.
- `GameRuns.RunConserves`: likewise; `SharedGame.RunRefines` carries it over to slices with room for draws.
- `GameRuns.GameConserves`: likewise; `SharedGame.SharedGameConserves` has the slices from the deal on.
- The capacity of the array beyond the deck, which the Taihu dealer has and no append reaches, is not part of the slices' model.
- `Snowflake.IdsIncreaseIff`: decoding times and ordering by time assume readings before the epoch plus 2^41 milliseconds.
- `Patterns.Calculate`: the Taihu settlement and the names of score classes are not modelled.
- `Engines.Engine.JudgeTasks`: the offers' time limit is set with them; the source sets it just afterwards.
- Hand sizes: the code lets the current player draw or discard repeatedly and lets anyone pass, so there is none to keep.
- `GetAvailableActions`, `RemoveTiles`, `GroupBySuit`, `CanFormMeld` and the remaining helpers beside the tile functions, players' scores, automatic play and cloning of player states: nothing above depends on them.
- `Connections.BoundIsLastLive`: assumes what the server does, namely fresh connection ids, one session for each connection with a positive user id and a platform, binding with the session's own pair, and removal only of connections that were added.
- `Framing.HandleIncomingStream`: whether an authentication waits is a parameter; the source declares the field for it and never sets it to anything but null.
- The server's header and body are two writes on a stream shared by senders; framing is stated on whole frames.
- `Batcher.MessageBatcher.SaveMessage`: a sender that waits for room is one that tries again, and the id that it returns is the business of `Snowflake`.
- `Batcher.MessageBatcher.Worker`: writing a batch to the database and reporting its result are not modelled.
- `Conversations.ConversationService.GetTotalUnreadCount`: store failures are not modelled, nor are paging and `GetUserConversations`.
- The scheduler and worker pool around the timing wheel: task execution and panics.
- Rooms (joining, leaving, readiness, seats): their invariants are immediate from each operation.
- The logic side's cached locations and the location keys: nothing refreshes them together, so there is no agreement to prove.
- NATS, Redis, PostgreSQL, QUIC and WebTransport, TLS, tokens, logging, configuration, the FlatBuffers code and the user interface.
