/** The game as a state machine over values: one tick, the restart, the
    key mapping, and what they guarantee. The class in snake.dfy performs the
    same transitions by updating its fields in place. */
module Engine {
  import opened Grid
  import opened Board
  import opened Catalog

  /** Tick interval in milliseconds at the start of a game. */
  const InitialTickMs: int := 140
  /** The interval never goes below this. */
  const MinTickMs: int := 80
  /** How much faster the game becomes per collected word. */
  const SpeedUpMs: int := 4

  datatype Option<T> = None | Some(value: T)

  /** Why the game ended; a wrong letter reports the letter that was due
      (None where the word has no letter at that position). */
  datatype Reason = BitItself | WrongLetter(expected: Option<char>)

  datatype Phase = Running | Over(reason: Reason)

  /** Everything a tick reads or writes. `body` runs from tail to head;
      `letters` maps a cell to the letter lying on it; `animal` is the
      catalog position of the current animal and `word` its name in upper
      case; `nextIndex` is the position in `word` of the letter due next. */
  datatype State = State(
    body: seq<Point>,
    dir: Point,
    nextDir: Point,
    letters: map<Point, Letter>,
    animal: nat,
    word: string,
    nextIndex: int,
    score: int,
    tickMs: int,
    phase: Phase)

  function Max(a: int, b: int): int {
    if a >= b then a else b
  }

  /** Indexing a string the way the game's message does: nothing when out of range. */
  function CharAt(s: string, i: int): Option<char> {
    if 0 <= i < |s| then Some(s[i]) else None
  }

  /** The head is the last cell of the body. */
  function Head(s: State): Point
    requires |s.body| > 0
  {
    s.body[|s.body| - 1]
  }

  /** The cell the head moves to on the next tick. */
  function NewHead(s: State): Point
    requires |s.body| > 0
  {
    Advance(Head(s), Resolve(s.dir, s.nextDir))
  }

  /** The cells the snake starts on, from tail to head, in the middle row. */
  const StartBody: seq<Point> :=
    var x := GridSize / 2 - 1;
    var y := GridSize / 2;
    [Point(x - 1, y), Point(x, y), Point(x + 1, y)]

  /** The variables as the game declares them, before the first restart. */
  const Loaded: State :=
    State([], Right, Right, map[], 0, "", 0, 0, InitialTickMs, Running)

  /** Letters of a round: each entry on the board, holding the letter of
      `word` at its index, indices from `from` on and never shared. */
  predicate LettersFit(m: map<Point, Letter>, word: string, from: int) {
    (forall c :: c in m ==> InGrid(c) && from <= m[c].index && 0 <= m[c].index < |word| && m[c].ch == word[m[c].index]) &&
    (forall c, d :: c in m && d in m && c != d ==> m[c].index != m[d].index)
  }

  /** What holds of every state the game reaches after it has started. */
  predicate Valid(s: State) {
    && |s.body| >= 3
    && (forall i :: 0 <= i < |s.body| ==> InGrid(s.body[i]))
    && Distinct(s.body)
    && IsUnit(s.dir) && IsUnit(s.nextDir)
    && s.animal < |Animals| && s.word == TargetWord(s.animal)
    && 0 <= s.nextIndex < |s.word|
    && LettersFit(s.letters, s.word, s.nextIndex)
    && s.score >= 0
    && MinTickMs <= s.tickMs <= InitialTickMs
  }

  function InitSnake(s: State): State {
    s.(body := StartBody, dir := Right, nextDir := Right)
  }

  function PickAnimal(s: State, pick: nat): State
    requires pick < |Animals|
  {
    s.(animal := pick, word := TargetWord(pick), nextIndex := 0)
  }

  function PlaceLetters(s: State, sample: Sampler): State {
    s.(letters := Place(s.word, s.body, sample))
  }

  /** A collected word: one more point, a faster tick, a new word. */
  function CompleteWord(s: State, pick: nat, sample: Sampler): State
    requires pick < |Animals|
  {
    var faster := s.(score := s.score + 1, tickMs := Max(MinTickMs, s.tickMs - SpeedUpMs));
    PlaceLetters(PickAnimal(faster, pick), sample)
  }

  /** One tick of the game. `pick` is the catalog position drawn should a
      new word be needed, `sample` the stream of random cells. */
  function Tick(s: State, pick: nat, sample: Sampler): (t: State)
    requires |s.body| > 0 && pick < |Animals|
    ensures |t.body| >= |s.body|
    ensures s.tickMs >= MinTickMs ==> MinTickMs <= t.tickMs <= s.tickMs
    ensures t.score == s.score || t.score == s.score + 1
    ensures s.phase.Over? ==> t.phase == s.phase
  {
    if s.phase.Over? then s
    else
      var head := NewHead(s);
      var turned := s.(dir := Resolve(s.dir, s.nextDir));
      if head in s.body then
        turned.(phase := Over(BitItself))
      else if head in s.letters && s.letters[head].index != s.nextIndex then
        turned.(phase := Over(WrongLetter(CharAt(s.word, s.nextIndex))))
      else MoveTo(turned, head, pick, sample)
  }

  /** The head moves onto `head`, which is not a snake cell: a letter there
      is eaten and the snake grows, otherwise the tail moves up; a collected
      word starts the next one. */
  function MoveTo(s: State, head: Point, pick: nat, sample: Sampler): State
    requires |s.body| > 0 && pick < |Animals|
  {
    var moved :=
      if head in s.letters then
        s.(letters := s.letters - {head}, nextIndex := s.nextIndex + 1, body := s.body + [head])
      else
        s.(body := s.body[1..] + [head]);
    if moved.nextIndex >= |moved.word| then CompleteWord(moved, pick, sample) else moved
  }

  /** restart(fullReset): running again, the snake back at the start, a new
      word; score and speed are reset only on a full reset. */
  function Restart(s: State, fullReset: bool, pick: nat, sample: Sampler): State
    requires pick < |Animals|
  {
    var running := s.(phase := Running);
    var reset := if fullReset then running.(score := 0, tickMs := InitialTickMs) else running;
    PlaceLetters(PickAnimal(InitSnake(reset), pick), sample)
  }

  /** The state once the game has loaded and started. */
  function Start(pick: nat, sample: Sampler): State
    requires pick < |Animals|
  {
    Restart(Loaded, true, pick, sample)
  }

  /** What a key press asks for. */
  datatype Intent = Turn(heading: Point) | NewGame | NoIntent

  function LowerChar(c: char): char {
    if 'A' <= c <= 'Z' then (c as int + 32) as char else c
  }

  function Lower(s: string): string {
    seq(|s|, i requires 0 <= i < |s| => LowerChar(s[i]))
  }

  /** Arrow keys and W/A/S/D turn, R restarts, any other key is ignored. */
  function KeyIntent(key: string): (r: Intent)
    ensures r.Turn? ==> IsUnit(r.heading)
  {
    var code := Lower(key);
    if code == "arrowup" || code == "w" then Turn(Up)
    else if code == "arrowdown" || code == "s" then Turn(Down)
    else if code == "arrowleft" || code == "a" then Turn(Left)
    else if code == "arrowright" || code == "d" then Turn(Right)
    else if code == "r" then NewGame
    else NoIntent
  }

  /** The effect of a key press: a turn overwrites the pending heading,
      R restarts with a full reset. */
  function OnKey(s: State, key: string, pick: nat, sample: Sampler): State
    requires pick < |Animals|
  {
    match KeyIntent(key)
    case Turn(d) => s.(nextDir := d)
    case NewGame => Restart(s, true, pick, sample)
    case NoIntent => s
  }

  /** Random choices for one tick. */
  datatype Draw = Draw(pick: nat, sample: Sampler)

  predicate PicksInCatalog(draws: seq<Draw>) {
    forall i :: 0 <= i < |draws| ==> draws[i].pick < |Animals|
  }

  /** The state after one tick per element of `draws`. */
  function Run(s: State, draws: seq<Draw>): State
    requires |s.body| > 0 && PicksInCatalog(draws)
    decreases |draws|
  {
    if draws == [] then s else Run(Tick(s, draws[0].pick, draws[0].sample), draws[1..])
  }
}
