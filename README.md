# Snake: collect the word — a Dafny model

This project models the game logic of the browser game in `snake/script.js`.
The snake moves on a 20 × 20 board that wraps around at its edges. Each round
shows an animal, and the letters of its English name, in upper case, lie on
random cells of the board. The player must eat the letters in order. Eating a
letter out of order ends the game, and so does biting any cell of the snake,
the tail included. Collecting the whole word scores a point, shortens the
tick by 4 ms (never below 80 ms) and starts a new word.

The model has two layers.

- `Engine` describes the game as a state machine over values. The functions
  are `Tick` (one call of `step`), `Restart` (`restart(fullReset)`) and
  `OnKey` (`onKeyDown`). `Run` applies a sequence of ticks.
- `Snake.Game` is a class whose fields are the script's game variables.
  Its methods update those fields in place, statement by statement as the
  script does. The methods that change the whole game state are proved equal
  to an `Engine` function, `Snapshot() == F(old(Snapshot()), …)`:
  `Step` to `Tick`, `MoveHead` to `MoveTo`, `NextRound` to `CompleteWord`,
  `Restart` to `Restart`, `OnKeyDown` to `OnKey`, `InitSnake` to
  `InitSnake`, `PickNewAnimal` to `PickAnimal` and `PlaceLettersForWord` to
  `PlaceLetters`. The constructor is proved to reach `Start`.
  `GameOver` and `ApplyTurn` state their new state directly. The helpers
  `NextHead`, `BitesItself`, `SnakeCells`, `DrawCell` and `LayOut` change
  nothing. Each is proved to return the value of a function: `Advance`,
  membership in the body, `CellSet`, `Search` and `Layout` of `Chosen`.

The other modules:

- `Grid`: cells, headings, how a pending turn is resolved, and the
  wrap-around step.
- `Keys`: the `"x,y"` string key of the letter map, with its parser.
- `Catalog`: the fifteen animals and their upper-case words.
- `Board`: letter placement. Each letter draws cells, with a retry cap, and
  the model states where the letters end up.
- `Properties`: the lemmas describing what a tick, a run, a restart and a
  key press guarantee.
- `Scenarios`: concrete games worked through tick by tick.

How randomness is handled:

- `choose(ANIMALS)` becomes a parameter `pick`, a catalog position.
- The stream of `randInt` cell draws becomes a function `sample: nat -> Point`.
  Draw number `n` is `sample(n)`, and the predicate `SamplesInGrid` states
  that every draw is a cell of the board.

Where the behaviour could be read two ways, the model follows the code:

- **The retry cap.** A letter keeps drawing while its cell is taken. The
  `do … while` loop breaks once `safety` exceeds 5000, after 5001 draws. The
  letter is then written on the last cell drawn, free or not. So with an
  unlucky source a letter can land on the snake, or replace an earlier
  letter of the same word. A letter is never left unplaced.
  `Board.CapTakesNextDraw` and `Board.CapPlacesOnSnake` state this.
- **Word completion.** A word counts as done when `nextLetterIndex >=
  targetWord.length`, not only on equality.
- **Collision.** Collision is tested against the whole body before the tail
  moves, so moving onto the tail's cell is a bite.

## Model

| member | source | states |
|---|---|---|
| Grid.Resolve | snake/script.js:204-207 | a pending heading that exactly reverses the current one is ignored, any other is adopted; for unit headings the result is a unit heading and never the reverse of the current one |
| Grid.WrapAxis | snake/script.js:213-216 | a coordinate one step off an edge re-enters at the opposite edge (−1 becomes 19 and 20 becomes 0); the result is always on the board, and an on-board coordinate is kept |
| Grid.WrapAxisIsMod | snake/script.js:213-216 | for a coordinate at most one step off the board, wrapping equals the remainder modulo 20 |
| Grid.Advance | snake/script.js:209-216 | the new head is always a cell of the board |
| Grid.AdvanceWraps | snake/script.js:209-216 | from a cell of the board, one step in a unit heading is addition modulo 20 in each coordinate |
| Grid.AdvanceIsNeighbour | snake/script.js:209-216 | the new head differs from the old one, in exactly one coordinate, by one step modulo 20 |
| Keys.Key | snake/script.js:62 | the key is the spelling of x, a comma, and the spelling of y, and its first comma is the one that separates the two |
| Keys.IntToString | snake/script.js:62 | the decimal spelling of a coordinate is non-empty and contains no comma, so the comma in a key separates x from y |
| Keys.CommaAt | snake/script.js:62 | finds the first comma of a key: no comma before it, and a comma at it when it is inside the string |
| Keys.ParseNatRoundTrip | snake/script.js:62 | reading back the decimal spelling of a natural number gives the number |
| Keys.ParseIntRoundTrip | snake/script.js:62 | reading back the spelling of any integer, a negative one included, gives the integer |
| Keys.KeyRoundTrip | snake/script.js:62 | parsing `key(x, y)` gives back the cell (x, y) |
| Keys.KeyInjective | snake/script.js:62 | two cells have the same key exactly when they are the same cell, so a map keyed by `key(x, y)` behaves as a map keyed by cells |
| Catalog.CatalogNames | snake/script.js:28-44 | the catalog has fifteen names, each a lower-case word of three to six letters |
| Catalog.TargetWord | snake/script.js:78-82 | the word for a drawn animal has the name's length, consists of upper-case letters only, and each letter is the upper-case form of the letter of the name at the same position (its code minus 32) |
| Board.FirstFree | snake/script.js:105-111 | the position of the first drawn cell that is not taken: every draw before it is taken, it is no later than the end of the draws, and its cell is free when it comes before the end |
| Board.Settle | snake/script.js:105-111 | the draw a search settles on lies between the current draw and the give-up draw, and when it comes before the give-up draw its cell is not taken |
| Board.SettleStep | snake/script.js:105-111 | a taken cell drawn before the give-up draw is skipped: the search goes on from the next draw |
| Board.SettleSkipsTaken | snake/script.js:105-111 | every draw before the settled one hit a taken cell, so the search takes the first free cell it draws |
| Board.Search | snake/script.js:104-111 | a letter makes at most 5001 draws; a draw before the 5001st is taken only when its cell is free |
| Board.CapTakesNextDraw | snake/script.js:104-111 | when the first 5000 draws of a letter and the 5001st all hit taken cells, the letter takes the 5001st draw, taken though it is |
| Board.AllTakenReachesStop | snake/script.js:105-111 | when every draw before the give-up draw is taken, the search runs up to the give-up draw |
| Board.Chosen | snake/script.js:102-114 | one chosen cell per letter of the word, drawn in order |
| Board.ChosenUsed | snake/script.js:98-100 | the taken cells after some letters are the snake's cells plus the cells chosen so far |
| Board.ChosenInGrid | snake/script.js:106-107 | every chosen cell is a cell of the board when the random source draws cells of the board |
| Board.ChosenFresh | snake/script.js:102-114 | when every letter finds a free cell in time, the chosen cells are pairwise distinct and none of them is a snake cell |
| Board.Layout | snake/script.js:112-113 | the letter map after letter j has been set at the j-th chosen cell, in order, a later `set` on the same cell replacing an earlier one |
| Board.LayoutKeys | snake/script.js:112-113 | the cells of the letter map are exactly the chosen cells |
| Board.LayoutEntries | snake/script.js:113 | every entry holds the character of the word at its index and lies on the cell chosen for that index |
| Board.LayoutIndicesDistinct | snake/script.js:113 | no two entries of the letter map share an index, whatever was drawn |
| Board.LayoutOfDistinct | snake/script.js:112-113 | on distinct chosen cells nothing is overwritten: one entry per letter, holding that letter and its index, at its cell |
| Board.Place | snake/script.js:96-115 | the letter map for a word around a snake: the map is cleared, the snake cells start as taken, and every letter is placed at its chosen cell |
| Board.PlaceWithinCap | snake/script.js:96-115 | when every letter finds a free cell in time, the map holds one entry per letter of the word, on distinct cells of the board, none of them a snake cell |
| Board.PlaceWellFormed | snake/script.js:96-115 | whatever was drawn, there are at most as many entries as letters, every entry lies on the board and holds the right letter for its index, and no index occurs twice |
| Board.ConstantSourceChosen | snake/script.js:104-114 | with a random source that always draws the same taken cell, every letter gives up after 5001 draws and takes that cell |
| Board.CapPlacesOnSnake | snake/script.js:104-114 | with a source that always draws a snake cell, the search is never within the cap and the whole word collapses to one entry on that snake cell, holding the last letter |
| Engine.InitSnake | snake/script.js:66-76 | the starting snake (8,10), (9,10), (10,10), with both headings right and nothing else changed |
| Engine.PickAnimal | snake/script.js:78-82 | the drawn animal becomes current, with its upper-case word and index 0 due |
| Engine.PlaceLetters | snake/script.js:96-115 | the letter map is replaced by the placement of the current word around the current snake |
| Engine.KeyIntent | snake/script.js:287-292 | every turn a key asks for is one of the four unit headings |
| Engine.Tick | snake/script.js:202-259 | the snake never shrinks; a tick interval of at least 80 ms never grows and never drops below 80 ms; the score grows by at most one; a finished game stays finished |
| Engine.MoveTo | snake/script.js:232-256 | the head moves onto a free cell: a letter there is eaten and the snake grows, otherwise the tail moves up; once the due index passes the word, the next word starts |
| Engine.CompleteWord | snake/script.js:246-256 | a collected word: one more point, a tick of max(80, tick − 4), a new animal and its letters |
| Engine.Restart | snake/script.js:269-279 | running again, the start snake, a new word and its letters; score and speed reset only on a full reset |
| Engine.OnKey | snake/script.js:286-293 | a turn key sets only the pending heading, R restarts with a full reset, any other key changes nothing |
| Properties.TickIgnoredWhileOver | snake/script.js:203 | a tick of a finished game changes nothing |
| Properties.RunIgnoredWhileOver | snake/script.js:203 | no number of ticks changes a finished game |
| Properties.TickHeading | snake/script.js:204-207 | an exact reversal keeps the old heading, anything else becomes the heading, and a unit heading is never replaced by its reverse |
| Properties.TickHead | snake/script.js:209-216 | while the game goes on, the new head is the old head advanced one step: on the board, and equal to the old head plus the heading modulo 20 |
| Properties.TickBite | snake/script.js:217-222 | moving onto any snake cell, the tail included, ends the game; the body, letters, score, due index, speed and word stay the same |
| Properties.TickWrongLetter | snake/script.js:224-231 | moving onto a letter out of order ends the game and names the letter that was due; the body, letters, score, due index and speed stay the same |
| Properties.TickPlainMove | snake/script.js:238-243 | a move onto an empty cell drops the tail and adds the head, so the length is kept; the letters, due index, score, speed and word stay the same |
| Properties.TickEat | snake/script.js:228-243 | eating the due letter, not the word's last: the letter leaves the map, the next index becomes due, and the snake grows by its new head |
| Properties.TickCompletesWord | snake/script.js:245-256 | eating the last letter: one more point, the tick becomes max(80, tick − 4), a new word with its first letter due, laid out around the grown snake |
| Properties.TickKeepsValid | snake/script.js:202-259 | every tick keeps the invariant: a snake of at least three distinct cells on the board, unit headings, a catalog word with its due index inside it, well-formed letters, and a tick interval between 80 and 140 ms |
| Properties.RunKeepsValid | snake/script.js:202-259 | any run of ticks keeps the invariant |
| Properties.RunSpeedAndScore | snake/script.js:246-250 | over any run of ticks the interval never grows and stays at least 80 ms, and the score grows by at most one point per tick |
| Properties.RestartState | snake/script.js:269-279 | a restart makes the game running again, puts the start snake back heading right, draws a new word with its first letter due and lays it out; score 0 and a 140 ms tick on a full reset only, otherwise both kept |
| Properties.RestartIsValid | snake/script.js:269-279 | a restart reaches a state satisfying the invariant, given sensible score and speed when the reset is not full |
| Properties.StartBodyFits | snake/script.js:66-73 | the start snake is three distinct cells of the board |
| Properties.OnKeyKeepsValid | snake/script.js:286-293 | a key press, a restart included, keeps the invariant |
| Properties.RestartLetters | snake/script.js:277-279 | when every letter finds a free cell in time, the letters after a restart are one per letter of the new word and none of them lies on the snake |
| Properties.ArrowKeys | snake/script.js:287-291 | the four arrow key names turn up, down, left and right |
| Properties.LetterKeys | snake/script.js:287-291 | w, s, a and d turn up, down, left and right, in either letter case |
| Properties.OtherKeys | snake/script.js:287-292 | r and R restart; any other key, such as Enter or x, is ignored |
| Properties.TurnKeySetsPending | snake/script.js:288-291 | a turn key only sets the pending heading; nothing else changes |
| Properties.LatestTurnWins | snake/script.js:288-291 | of two turn keys pressed between ticks, only the second is remembered |
| Properties.RestartKeyAnyTime | snake/script.js:292 | R restarts with a full reset, whether the game is running or over, and the game is running afterwards |
| Scenarios.CatCollected | snake/script.js:202-259 | three ticks straight ahead over C, A, T collect the word: one point, a 136 ms tick, a six-cell snake, a new word from index 0 |
| Scenarios.CatWrongOrder | snake/script.js:228-231 | with A lying before C, the first tick eats A out of order and ends the game, naming C |
| Scenarios.ReversalDropped | snake/script.js:204-207 | a pending left turn while heading right is dropped and the snake moves right |
| Scenarios.LeftKeyPends | snake/script.js:290 | pressing ArrowLeft only sets the pending heading to left |
| Scenarios.LeftThenRight | snake/script.js:204-207 | left then right between ticks: the snake keeps moving right |
| Scenarios.TailBite | snake/script.js:217-222 | a square-curled snake moving onto its tail's cell bites itself |
| Scenarios.WrapAroundRight | snake/script.js:213-214 | heading right from the last column comes back in column 0 |
| Scenarios.WrapAroundUp | snake/script.js:215-216 | heading up from the top row comes back in row 19 |
| Snake.Game.constructor | snake/script.js:47-59 | the declared initial values followed by `restart(true)`: the state is `Start`, and it satisfies the invariant when the random source draws cells of the board |
| Snake.Game.InitSnake | snake/script.js:66-76 | the body becomes the three start cells and both headings become right; nothing else changes |
| Snake.Game.PickNewAnimal | snake/script.js:78-84 | the drawn animal becomes current, with its upper-case word and index 0 due |
| Snake.Game.PlaceLettersForWord | snake/script.js:96-115 | the letter map is replaced by the placement of the current word around the current snake |
| Snake.Game.LayOut | snake/script.js:102-114 | the placement loop builds exactly the letter map that the placement function describes |
| Snake.Game.SnakeCells | snake/script.js:98-100 | the taken set starts as the set of the snake's cells |
| Snake.Game.DrawCell | snake/script.js:103-111 | the retry loop of one letter returns the cell and draw number that `Board.Search` settles on |
| Snake.Game.BitesItself | snake/script.js:218-222 | true exactly when the new head is one of the snake's cells |
| Snake.Game.GameOver | snake/script.js:261-262 | only the phase changes, to over with the given reason |
| Snake.Game.ApplyTurn | snake/script.js:204-207 | the heading becomes the resolved heading; nothing else changes |
| Snake.Game.NextHead | snake/script.js:209-216 | the computed head is the head advanced one step with wrap-around |
| Snake.Game.MoveHead | snake/script.js:232-256 | eating, growing or moving the tail, and the word check, as `Engine.MoveTo` describes |
| Snake.Game.NextRound | snake/script.js:246-256 | one more point, the interval max(80, tick − 4), a new animal and its letters |
| Snake.Game.Step | snake/script.js:202-259 | the fields after a tick are `Engine.Tick` of the fields before; a state satisfying the invariant keeps it |
| Snake.Game.Restart | snake/script.js:269-279 | the fields after the call are `Engine.Restart` of the fields before; the new state satisfies the invariant when the reset is full or the old score and speed are sensible |
| Snake.Game.OnKeyDown | snake/script.js:286-293 | the fields after the call are `Engine.OnKey` of the fields before; a state satisfying the invariant keeps it |

## Left out

- Rendering is not modelled: the canvas, the grid, the snake and letter drawing, and the overlay (`draw*`, lines 117-200).
- The score and emoji display, and the roundRect polyfill, are not modelled. They only write to the page.
- Timers are not modelled: `setInterval` and `clearInterval`. A tick is a call of `Step`, and the interval is kept as the number `tickMs`.
- `Math.random` is replaced by the parameters `pick` and `sample`. `randInt`'s floor arithmetic is summed up by `SamplesInGrid`.
- Event wiring is not modelled. The keydown listener and the restart button both call methods that are modelled (`OnKeyDown`, and `Restart` with `fullReset` true).
- The game-over reason is a datatype, not the Russian message text. A wrong letter carries the due character, or `None` where JavaScript would print `undefined`.
- `isOccupied` (lines 86-94) is not modelled, because nothing calls it.
- Letters are keyed by cell rather than by the string `key(x, y)`. `Keys.KeyInjective` shows the two kinds of map behave the same.
- Each letter entry holds its character and index. The cell is not repeated inside the entry, because the entry is keyed by its cell.
- Snake.Game.PlaceLettersForWord: builds the new letter map in a local variable, then assigns it to the field. The source clears the shared map and then fills it. The result is the same map.
- Catalog.TargetWord: upper-cases with an ASCII-only mapping, not a full locale-aware one; the catalog names are ASCII.
- Lower-casing of key names in `KeyIntent` is ASCII-only as well.
- Emoji are not modelled.
