/** The game as the program runs it: one object whose fields are the game's
    variables, updated in place by each tick, restart and key press. The
    methods that change the whole game state are proved equal to an Engine
    function: Step to Tick, MoveHead to MoveTo, NextRound to CompleteWord,
    Restart to Restart, OnKeyDown to OnKey, InitSnake to InitSnake,
    PickNewAnimal to PickAnimal and PlaceLettersForWord to PlaceLetters; the
    constructor reaches Start. GameOver and ApplyTurn state their new state
    directly. NextHead, BitesItself, SnakeCells, DrawCell and LayOut change
    nothing and return the value of Advance, membership in the body, CellSet,
    Search and Layout of Chosen. */
module Snake {
  import opened Grid
  import opened Board
  import opened Catalog
  import opened Engine
  import opened Properties

  class Game {
    /** Snake cells from tail to head. */
    var body: seq<Point>
    /** Current heading, and the heading asked for by the last key press. */
    var dir: Point
    var nextDir: Point
    /** Cell to the letter lying on it. */
    var letters: map<Point, Letter>
    /** Catalog position of the current animal, and its upper-case name. */
    var animal: nat
    var word: string
    /** Position in `word` of the letter to be eaten next. */
    var nextIndex: int
    var score: int
    var tickMs: int
    var phase: Phase

    function Snapshot(): State
      reads this
    {
      State(body, dir, nextDir, letters, animal, word, nextIndex, score, tickMs, phase)
    }

    /** Loading the game: the variables get their declared values, then a
        full restart starts the first round. */
    constructor (pick: nat, sample: Sampler)
      requires pick < |Animals|
      ensures Snapshot() == Start(pick, sample)
      ensures SamplesInGrid(sample) ==> Valid(Snapshot())
    {
      body, dir, nextDir := [], Right, Right;
      letters, animal, word, nextIndex := map[], 0, "", 0;
      score, tickMs, phase := 0, InitialTickMs, Running;
      new;
      Restart(true, pick, sample);
      if SamplesInGrid(sample) {
        RestartIsValid(Loaded, true, pick, sample);
      }
    }

    /** The three-cell snake in the middle row, heading right. */
    method InitSnake()
      modifies this
      ensures Snapshot() == Engine.InitSnake(old(Snapshot()))
    {
      var startX := GridSize / 2 - 1;
      var startY := GridSize / 2;
      body := [Point(startX - 1, startY), Point(startX, startY), Point(startX + 1, startY)];
      dir := Right;
      nextDir := Right;
    }

    /** The drawn animal becomes current; its first letter is due. */
    method PickNewAnimal(pick: nat)
      requires pick < |Animals|
      modifies this
      ensures Snapshot() == PickAnimal(old(Snapshot()), pick)
    {
      animal := pick;
      word := TargetWord(pick);
      nextIndex := 0;
    }

    /** Clears the letters and lays out the current word, each letter
        drawing cells until one is free or the retry cap is passed. */
    method PlaceLettersForWord(sample: Sampler)
      modifies this
      ensures Snapshot() == PlaceLetters(old(Snapshot()), sample)
    {
      // the snake's cells are taken
      var used := SnakeCells();
      letters := LayOut(word, used, sample);
    }

    /** The placement loop: letter i draws its cell with the retry loop,
        the cell becomes taken, and the letter is written there. */
    static method LayOut(word: string, taken: set<Point>, sample: Sampler) returns (placed: map<Point, Letter>)
      ensures placed == Layout(word, Chosen(|word|, taken, sample).cells)
    {
      placed := map[];
      var used := taken;
      var n: nat := 0;
      ghost var chosen: seq<Point> := [];
      for i := 0 to |word|
        invariant Progress(used, n, chosen) == Chosen(i, taken, sample)
        invariant placed == Layout(word, chosen)
      {
        var c, n' := DrawCell(used, sample, n);
        n := n';
        used := used + {c};
        placed := placed[c := Letter(word[i], i)];
        assert (chosen + [c])[..i] == chosen;
        chosen := chosen + [c];
      }
    }

    /** The set of the snake's cells. */
    method SnakeCells() returns (used: set<Point>)
      ensures used == CellSet(body)
    {
      used := {};
      for j := 0 to |body|
        invariant used == CellSet(body[..j])
      {
        assert CellSet(body[..j + 1]) == CellSet(body[..j]) + {body[j]} by {
          assert body[..j + 1] == body[..j] + [body[j]];
        }
        used := used + {body[j]};
      }
      assert body[..|body|] == body;
    }

    /** The retry loop for one letter, drawing from draw `n` on: keeps
        drawing while the cell is taken and fewer than 5001 draws were made.
        Returns the cell taken and the number of the next draw. */
    static method DrawCell(used: set<Point>, sample: Sampler, n: nat) returns (c: Point, next: nat)
      ensures next == Search(used, sample, n) + 1 && c == sample(next - 1)
    {
      c := sample(n);
      next := n + 1;
      var safety := 1;
      while safety <= RetryCap && c in used
        invariant 1 <= safety <= RetryCap + 1
        invariant next == n + safety && c == sample(next - 1)
        invariant Search(used, sample, n) == Settle(used, sample, next - 1, n + RetryCap)
        decreases RetryCap + 1 - safety
      {
        SettleStep(used, sample, next - 1, n + RetryCap);
        c := sample(next);
        next := next + 1;
        safety := safety + 1;
      }
    }

    /** Whether `head` is on one of the snake's cells, the tail included. */
    method BitesItself(head: Point) returns (bitten: bool)
      ensures bitten <==> head in body
    {
      var i := 0;
      while i < |body|
        invariant 0 <= i <= |body|
        invariant head !in body[..i]
      {
        if body[i] == head {
          return true;
        }
        assert body[..i + 1] == body[..i] + [body[i]];
        i := i + 1;
      }
      assert body[..i] == body;
      return false;
    }

    method GameOver(reason: Reason)
      modifies this
      ensures Snapshot() == old(Snapshot()).(phase := Over(reason))
    {
      phase := Over(reason);
    }

    /** One tick: turn, move with wrap-around, then bite, wrong letter,
        letter eaten or plain move, and a new word once the word is done. */
    method Step(pick: nat, sample: Sampler)
      requires |body| > 0 && pick < |Animals|
      modifies this
      ensures Snapshot() == Tick(old(Snapshot()), pick, sample)
      ensures Valid(old(Snapshot())) && SamplesInGrid(sample) ==> Valid(Snapshot())
    {
      if Valid(Snapshot()) && SamplesInGrid(sample) {
        TickKeepsValid(Snapshot(), pick, sample);
      }
      if phase.Over? {
        return;
      }
      ghost var s := Snapshot();
      ApplyTurn();
      var newHead := NextHead();
      assert newHead == NewHead(s);
      var bitten := BitesItself(newHead);
      if bitten {
        GameOver(BitItself);
        return;
      }
      if newHead in letters && letters[newHead].index != nextIndex {
        GameOver(WrongLetter(CharAt(word, nextIndex)));
        return;
      }
      MoveHead(newHead, pick, sample);
    }

    /** The head moves onto a free cell: a correct letter there is eaten and
        the snake grows, otherwise the tail moves up; then the word check. */
    method MoveHead(newHead: Point, pick: nat, sample: Sampler)
      requires |body| > 0 && pick < |Animals|
      modifies this
      ensures Snapshot() == MoveTo(old(Snapshot()), newHead, pick, sample)
    {
      var ate := newHead in letters;
      if ate {
        letters := letters - {newHead};
        nextIndex := nextIndex + 1;
      }
      body := body + [newHead];
      if !ate {
        body := body[1..];
        assert body == old(body)[1..] + [newHead];
      }
      if nextIndex >= |word| {
        NextRound(pick, sample);
      }
    }

    /** The pending heading becomes current unless it reverses the current one. */
    method ApplyTurn()
      modifies this
      ensures Snapshot() == old(Snapshot()).(dir := Resolve(old(dir), old(nextDir)))
    {
      if !(nextDir.x == -dir.x && nextDir.y == -dir.y) {
        dir := nextDir;
      }
    }

    /** The cell one step ahead of the head, wrapped around the board's edges. */
    method NextHead() returns (newHead: Point)
      requires |body| > 0
      ensures newHead == Advance(body[|body| - 1], dir)
    {
      var head := body[|body| - 1];
      newHead := Point(head.x + dir.x, head.y + dir.y);
      if newHead.x < 0 {
        newHead := newHead.(x := GridSize - 1);
      } else if newHead.x >= GridSize {
        newHead := newHead.(x := 0);
      }
      if newHead.y < 0 {
        newHead := newHead.(y := GridSize - 1);
      } else if newHead.y >= GridSize {
        newHead := newHead.(y := 0);
      }
    }

    /** A collected word: one more point, a faster tick, a new word and its letters. */
    method NextRound(pick: nat, sample: Sampler)
      requires pick < |Animals|
      modifies this
      ensures Snapshot() == CompleteWord(old(Snapshot()), pick, sample)
    {
      score := score + 1;
      tickMs := Max(MinTickMs, tickMs - SpeedUpMs);
      PickNewAnimal(pick);
      PlaceLettersForWord(sample);
    }

    /** restart(fullReset): running again with the starting snake and a new
        word; score and speed go back to their start values on a full reset. */
    method Restart(fullReset: bool, pick: nat, sample: Sampler)
      requires pick < |Animals|
      modifies this
      ensures Snapshot() == Engine.Restart(old(Snapshot()), fullReset, pick, sample)
      ensures SamplesInGrid(sample) && (fullReset || (old(score) >= 0 && MinTickMs <= old(tickMs) <= InitialTickMs))
        ==> Valid(Snapshot())
    {
      ghost var s := Snapshot();
      phase := Running;
      if fullReset {
        score := 0;
        tickMs := InitialTickMs;
      }
      InitSnake();
      PickNewAnimal(pick);
      PlaceLettersForWord(sample);
      if SamplesInGrid(sample) && (fullReset || (s.score >= 0 && MinTickMs <= s.tickMs <= InitialTickMs)) {
        RestartIsValid(s, fullReset, pick, sample);
      }
    }

    /** A key press: arrows and W/A/S/D set the pending heading, R restarts
        with a full reset, anything else is ignored. */
    method OnKeyDown(key: string, pick: nat, sample: Sampler)
      requires pick < |Animals|
      modifies this
      ensures Snapshot() == OnKey(old(Snapshot()), key, pick, sample)
      ensures Valid(old(Snapshot())) && SamplesInGrid(sample) ==> Valid(Snapshot())
    {
      if Valid(Snapshot()) && SamplesInGrid(sample) {
        OnKeyKeepsValid(Snapshot(), key, pick, sample);
      }
      var code := Lower(key);
      if code == "arrowup" || code == "w" {
        nextDir := Up;
      } else if code == "arrowdown" || code == "s" {
        nextDir := Down;
      } else if code == "arrowleft" || code == "a" {
        nextDir := Left;
      } else if code == "arrowright" || code == "d" {
        nextDir := Right;
      } else if code == "r" {
        Restart(true, pick, sample);
      }
    }
  }
}
