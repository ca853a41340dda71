/** Concrete games worked through tick by tick. */
module Scenarios {
  import opened Grid
  import opened Board
  import opened Catalog
  import opened Engine
  import opened Properties

  /** A running round of "CAT" with nothing scored yet, its first letter due. */
  function CatRound(body: seq<Point>, dir: Point, nextDir: Point, letters: map<Point, Letter>): State {
    State(body, dir, nextDir, letters, 1, "CAT", 0, 0, InitialTickMs, Running)
  }

  /** C, A, T laid out straight ahead of the starting snake. */
  const CatLetters: map<Point, Letter> :=
    map[Point(11, 10) := Letter('C', 0), Point(12, 10) := Letter('A', 1), Point(13, 10) := Letter('T', 2)]

  /** Three ticks straight ahead collect C, A, T in order: one point, a
      136 ms tick, a six-cell snake, and a new word with its first letter due. */
  lemma CatCollected(s: State, pick: nat, sample: Sampler)
    requires pick < |Animals| && s == CatRound(StartBody, Right, Right, CatLetters)
    ensures var t := Tick(Tick(Tick(s, pick, sample), pick, sample), pick, sample);
      t.phase == Running && t.score == 1 && t.tickMs == 136 && t.nextIndex == 0 &&
      t.word == TargetWord(pick) &&
      t.body == [Point(8, 10), Point(9, 10), Point(10, 10), Point(11, 10), Point(12, 10), Point(13, 10)]
  {
    assert NewHead(s) == Point(11, 10);
    TickEat(s, pick, sample);
    var s1 := Tick(s, pick, sample);
    assert NewHead(s1) == Point(12, 10);
    TickEat(s1, pick, sample);
    var s2 := Tick(s1, pick, sample);
    assert NewHead(s2) == Point(13, 10);
    TickCompletesWord(s2, pick, sample);
  }

  /** The same board with A and C swapped: the first letter eaten is out of
      order and the game ends, naming C as the letter that was due. */
  lemma CatWrongOrder(s: State, pick: nat, sample: Sampler)
    requires pick < |Animals|
    requires s == CatRound(StartBody, Right, Right, map[Point(11, 10) := Letter('A', 1), Point(12, 10) := Letter('C', 0)])
    ensures var t := Tick(s, pick, sample);
      t.phase == Over(WrongLetter(Some('C'))) && t.body == StartBody && t.letters == s.letters
  {
    assert NewHead(s) == Point(11, 10);
    TickWrongLetter(s, pick, sample);
  }

  /** A pending turn to the left while heading right is a reversal: the
      tick drops it and the snake goes on to the right. */
  lemma ReversalDropped(s: State, pick: nat, sample: Sampler)
    requires pick < |Animals| && s == CatRound(StartBody, Right, Left, map[])
    ensures var t := Tick(s, pick, sample);
      t.dir == Right && Head(t) == Point(11, 10) && t.phase == Running
  {
    assert Resolve(s.dir, s.nextDir) == Right;
    assert NewHead(s) == Point(11, 10);
    TickHeading(s, pick, sample);
    TickPlainMove(s, pick, sample);
  }

  /** Pressing Left only sets the pending heading. */
  lemma LeftKeyPends(s: State, pick: nat, sample: Sampler)
    requires pick < |Animals| && s == CatRound(StartBody, Right, Right, map[])
    ensures OnKey(s, "ArrowLeft", pick, sample) == CatRound(StartBody, Right, Left, map[])
  {
    ArrowKeys();
    TurnKeySetsPending(s, "ArrowLeft", pick, sample);
  }

  /** Left then right between two ticks while heading right: only the last
      press counts, so the snake goes on to the right. */
  lemma LeftThenRight(s: State, pick: nat, sample: Sampler)
    requires pick < |Animals| && s == CatRound(StartBody, Right, Right, map[])
    ensures var t := Tick(OnKey(OnKey(s, "ArrowLeft", pick, sample), "ArrowRight", pick, sample), pick, sample);
      t.dir == Right && Head(t) == Point(11, 10) && t.phase == Running
  {
    ArrowKeys();
    LatestTurnWins(s, "ArrowLeft", "ArrowRight", pick, sample);
    assert OnKey(OnKey(s, "ArrowLeft", pick, sample), "ArrowRight", pick, sample) == s;
    assert NewHead(s) == Point(11, 10);
    TickHeading(s, pick, sample);
    TickPlainMove(s, pick, sample);
  }

  /** A four-cell snake curled into a square whose head moves onto the
      tail's cell bites itself, although the tail would have moved on. */
  lemma TailBite(s: State, pick: nat, sample: Sampler)
    requires pick < |Animals| && s == CatRound([Point(0, 0), Point(1, 0), Point(1, 1), Point(0, 1)], Up, Up, CatLetters)
    ensures Tick(s, pick, sample).phase == Over(BitItself)
  {
    assert NewHead(s) == Point(0, 0);
    TickBite(s, pick, sample);
  }

  /** Heading right from the last column comes back in the first one. */
  lemma WrapAroundRight(s: State, pick: nat, sample: Sampler)
    requires pick < |Animals| && s == CatRound([Point(17, 10), Point(18, 10), Point(19, 10)], Right, Right, map[])
    ensures Head(Tick(s, pick, sample)) == Point(0, 10)
  {
    assert NewHead(s) == Point(0, 10);
    TickPlainMove(s, pick, sample);
  }

  /** Heading up from the top row comes back in the bottom row. */
  lemma WrapAroundUp(s: State, pick: nat, sample: Sampler)
    requires pick < |Animals| && s == CatRound([Point(3, 2), Point(3, 1), Point(3, 0)], Up, Up, map[])
    ensures Head(Tick(s, pick, sample)) == Point(3, 19)
  {
    assert NewHead(s) == Point(3, 19);
    TickPlainMove(s, pick, sample);
  }
}
