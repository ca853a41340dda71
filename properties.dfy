/** What one tick, a run of ticks, a restart and a key press guarantee. */
module Properties {
  import opened Grid
  import opened Board
  import opened Catalog
  import opened Engine

  /** Once over, a tick changes nothing. */
  lemma TickIgnoredWhileOver(s: State, pick: nat, sample: Sampler)
    requires |s.body| > 0 && pick < |Animals| && s.phase.Over?
    ensures Tick(s, pick, sample) == s
  {
  }

  /** Once over, no number of ticks changes anything until a restart. */
  lemma {:induction false} RunIgnoredWhileOver(s: State, draws: seq<Draw>)
    requires |s.body| > 0 && PicksInCatalog(draws) && s.phase.Over?
    ensures Run(s, draws) == s
    decreases |draws|
  {
    if draws != [] {
      RunIgnoredWhileOver(Tick(s, draws[0].pick, draws[0].sample), draws[1..]);
    }
  }

  /** A pending heading that exactly reverses the current one is dropped;
      any other pending heading becomes the heading. A unit heading is
      never replaced by its reverse. */
  lemma TickHeading(s: State, pick: nat, sample: Sampler)
    requires |s.body| > 0 && pick < |Animals| && s.phase.Running?
    ensures var t := Tick(s, pick, sample);
      (s.nextDir.x == -s.dir.x && s.nextDir.y == -s.dir.y ==> t.dir == s.dir) &&
      (!(s.nextDir.x == -s.dir.x && s.nextDir.y == -s.dir.y) ==> t.dir == s.nextDir) &&
      (IsUnit(s.dir) && IsUnit(s.nextDir) ==> IsUnit(t.dir) && t.dir != Opposite(s.dir))
  {
  }

  /** While the game goes on, the new head is the old head moved one cell
      on the torus: always on the board, and for an on-board head and a
      unit heading the same as adding the heading modulo the board size. */
  lemma TickHead(s: State, pick: nat, sample: Sampler)
    requires |s.body| > 0 && pick < |Animals| && s.phase.Running?
    requires Tick(s, pick, sample).phase.Running?
    ensures var t := Tick(s, pick, sample);
      |t.body| > 0 && Head(t) == NewHead(s) && InGrid(Head(t)) &&
      (InGrid(Head(s)) && IsUnit(t.dir) ==>
        Head(t) == Point((Head(s).x + t.dir.x) % GridSize, (Head(s).y + t.dir.y) % GridSize))
  {
    var t := Tick(s, pick, sample);
    var h := NewHead(s);
    var moved := if h in s.letters then s.body + [h] else s.body[1..] + [h];
    assert t.body == moved;
    assert t.dir == Resolve(s.dir, s.nextDir);
    if InGrid(Head(s)) && IsUnit(t.dir) {
      AdvanceWraps(Head(s), t.dir);
    }
  }

  /** Moving onto any cell of the body, the tail included, ends the game;
      besides the heading, nothing else changes. */
  lemma TickBite(s: State, pick: nat, sample: Sampler)
    requires |s.body| > 0 && pick < |Animals| && s.phase.Running?
    requires NewHead(s) in s.body
    ensures var t := Tick(s, pick, sample);
      t.phase == Over(BitItself) &&
      t.body == s.body && t.letters == s.letters && t.score == s.score &&
      t.nextIndex == s.nextIndex && t.tickMs == s.tickMs && t.word == s.word
  {
  }

  /** Moving onto a letter out of order ends the game, naming the letter
      that was due; the snake and the letters stay as they were. */
  lemma TickWrongLetter(s: State, pick: nat, sample: Sampler)
    requires |s.body| > 0 && pick < |Animals| && s.phase.Running?
    requires NewHead(s) !in s.body && NewHead(s) in s.letters
    requires s.letters[NewHead(s)].index != s.nextIndex
    ensures var t := Tick(s, pick, sample);
      t.phase == Over(WrongLetter(CharAt(s.word, s.nextIndex))) &&
      t.body == s.body && t.letters == s.letters && t.score == s.score &&
      t.nextIndex == s.nextIndex && t.tickMs == s.tickMs
  {
  }

  /** A plain move onto an empty cell: the tail cell is dropped and the new
      head added, so the length is kept; nothing else changes. */
  lemma TickPlainMove(s: State, pick: nat, sample: Sampler)
    requires |s.body| > 0 && pick < |Animals| && s.phase.Running?
    requires s.nextIndex < |s.word|
    requires NewHead(s) !in s.body && NewHead(s) !in s.letters
    ensures var t := Tick(s, pick, sample);
      t.phase == Running && t.body == s.body[1..] + [NewHead(s)] && |t.body| == |s.body| &&
      t.letters == s.letters && t.nextIndex == s.nextIndex && t.score == s.score &&
      t.tickMs == s.tickMs && t.word == s.word
  {
  }

  /** Eating the letter that is due, not the last one of the word: the letter
      goes, the next one becomes due and the snake grows by its new head. */
  lemma TickEat(s: State, pick: nat, sample: Sampler)
    requires |s.body| > 0 && pick < |Animals| && s.phase.Running?
    requires NewHead(s) !in s.body && NewHead(s) in s.letters
    requires s.letters[NewHead(s)].index == s.nextIndex && s.nextIndex + 1 < |s.word|
    ensures var t := Tick(s, pick, sample);
      t.phase == Running && t.body == s.body + [NewHead(s)] && |t.body| == |s.body| + 1 &&
      t.letters == s.letters - {NewHead(s)} && NewHead(s) !in t.letters &&
      t.nextIndex == s.nextIndex + 1 && t.score == s.score && t.tickMs == s.tickMs && t.word == s.word
  {
  }

  /** Eating the last letter of the word: exactly one more point, the tick
      4 ms shorter but not below 80 ms, a new word from the drawn animal with
      its first letter due, laid out around the grown snake. */
  lemma TickCompletesWord(s: State, pick: nat, sample: Sampler)
    requires |s.body| > 0 && pick < |Animals| && s.phase.Running?
    requires NewHead(s) !in s.body && NewHead(s) in s.letters
    requires s.letters[NewHead(s)].index == s.nextIndex && s.nextIndex + 1 >= |s.word|
    ensures var t := Tick(s, pick, sample);
      t.phase == Running && t.body == s.body + [NewHead(s)] &&
      t.score == s.score + 1 && t.tickMs == Max(MinTickMs, s.tickMs - SpeedUpMs) &&
      t.tickMs >= MinTickMs &&
      t.animal == pick && t.word == TargetWord(pick) && t.nextIndex == 0 &&
      t.letters == Place(TargetWord(pick), s.body + [NewHead(s)], sample)
  {
  }

  /** Every tick keeps the game's invariant: a snake of at least three
      distinct cells on the board, unit headings, a catalog word with a due
      position inside it, well-formed letters, and the tick interval kept
      between 80 and 140 ms. */
  lemma TickKeepsValid(s: State, pick: nat, sample: Sampler)
    requires Valid(s) && pick < |Animals| && SamplesInGrid(sample)
    ensures Valid(Tick(s, pick, sample))
  {
    var t := Tick(s, pick, sample);
    if s.phase.Running? {
      var h := NewHead(s);
      if h !in s.body && !(h in s.letters && s.letters[h].index != s.nextIndex) {
        var body' := if h in s.letters then s.body + [h] else s.body[1..] + [h];
        assert Distinct(body') by {
          forall i, j | 0 <= i < j < |body'| ensures body'[i] != body'[j] {
            if j == |body'| - 1 {
              if h in s.letters { assert body'[i] == s.body[i]; }
              else { assert body'[i] == s.body[i + 1]; }
            } else if h !in s.letters {
              assert body'[i] == s.body[i + 1] && body'[j] == s.body[j + 1];
            } else {
              assert body'[i] == s.body[i] && body'[j] == s.body[j];
            }
          }
        }
        assert forall i :: 0 <= i < |body'| ==> InGrid(body'[i]) by {
          forall i | 0 <= i < |body'| ensures InGrid(body'[i]) {
            if i < |body'| - 1 {
              if h in s.letters { assert body'[i] == s.body[i]; }
              else { assert body'[i] == s.body[i + 1]; }
            }
          }
        }
        assert t.body == body';
        if h in s.letters && s.nextIndex + 1 >= |s.word| {
          PlaceWellFormed(TargetWord(pick), body', sample);
        } else if h in s.letters {
          var m := s.letters - {h};
          forall c | c in m ensures s.nextIndex + 1 <= m[c].index {
            assert s.letters[c].index != s.letters[h].index;
          }
        }
      }
    }
  }

  /** Any number of ticks keeps the invariant. */
  lemma {:induction false} RunKeepsValid(s: State, draws: seq<Draw>)
    requires Valid(s) && PicksInCatalog(draws)
    requires forall i :: 0 <= i < |draws| ==> SamplesInGrid(draws[i].sample)
    ensures Valid(Run(s, draws))
    decreases |draws|
  {
    if draws != [] {
      TickKeepsValid(s, draws[0].pick, draws[0].sample);
      RunKeepsValid(Tick(s, draws[0].pick, draws[0].sample), draws[1..]);
    }
  }

  /** Over any run of ticks the interval never grows and never goes below
      80 ms, and the score only grows, by at most one point per tick. */
  lemma {:induction false} RunSpeedAndScore(s: State, draws: seq<Draw>)
    requires |s.body| > 0 && PicksInCatalog(draws) && s.tickMs >= MinTickMs
    ensures var t := Run(s, draws);
      MinTickMs <= t.tickMs <= s.tickMs && s.score <= t.score <= s.score + |draws|
    decreases |draws|
  {
    if draws != [] {
      RunSpeedAndScore(Tick(s, draws[0].pick, draws[0].sample), draws[1..]);
    }
  }

  /** restart(fullReset): running, the three-cell snake at (8,10), (9,10),
      (10,10) heading right, a new word with its first letter due laid out
      around it; score 0 and a 140 ms tick only on a full reset, otherwise
      both kept. */
  lemma RestartState(s: State, fullReset: bool, pick: nat, sample: Sampler)
    requires pick < |Animals|
    ensures var t := Restart(s, fullReset, pick, sample);
      t.phase == Running &&
      t.body == [Point(8, 10), Point(9, 10), Point(10, 10)] &&
      t.dir == Point(1, 0) && t.nextDir == Point(1, 0) &&
      t.animal == pick && t.word == TargetWord(pick) && t.nextIndex == 0 &&
      t.letters == Place(TargetWord(pick), t.body, sample) &&
      (fullReset ==> t.score == 0 && t.tickMs == 140) &&
      (!fullReset ==> t.score == s.score && t.tickMs == s.tickMs)
  {
    assert StartBody == [Point(8, 10), Point(9, 10), Point(10, 10)];
  }

  /** A restart leads to a state satisfying the invariant, provided a
      partial restart starts from sensible score and speed. */
  lemma RestartIsValid(s: State, fullReset: bool, pick: nat, sample: Sampler)
    requires pick < |Animals| && SamplesInGrid(sample)
    requires fullReset || (s.score >= 0 && MinTickMs <= s.tickMs <= InitialTickMs)
    ensures Valid(Restart(s, fullReset, pick, sample))
  {
    PlaceWellFormed(TargetWord(pick), StartBody, sample);
    StartBodyFits();
  }

  /** The starting snake: three distinct cells of the board. */
  lemma StartBodyFits()
    ensures |StartBody| == 3 && Distinct(StartBody)
    ensures forall i :: 0 <= i < |StartBody| ==> InGrid(StartBody[i])
  {
    assert StartBody == [Point(8, 10), Point(9, 10), Point(10, 10)];
  }

  /** A key press keeps the invariant: a turn key sets a unit pending
      heading, R restarts with a full reset, any other key changes nothing. */
  lemma OnKeyKeepsValid(s: State, key: string, pick: nat, sample: Sampler)
    requires Valid(s) && pick < |Animals| && SamplesInGrid(sample)
    ensures Valid(OnKey(s, key, pick, sample))
  {
    if KeyIntent(key) == NewGame {
      RestartIsValid(s, true, pick, sample);
    }
  }

  /** The letters a restart lays out are, when every letter finds a free
      cell in time, one per position of the new word and none on the snake. */
  lemma RestartLetters(s: State, fullReset: bool, pick: nat, sample: Sampler)
    requires pick < |Animals| && SamplesInGrid(sample)
    requires WithinCap(|TargetWord(pick)|, CellSet(StartBody), sample)
    ensures var t := Restart(s, fullReset, pick, sample);
      |t.letters| == |t.word| &&
      (forall i :: 0 <= i < |t.word| ==> Letter(t.word[i], i) in t.letters.Values) &&
      (forall c :: c in t.letters ==> c !in t.body)
  {
    PlaceWithinCap(TargetWord(pick), StartBody, sample);
  }

  /** The arrow keys turn, whatever the letter case of their names. */
  lemma ArrowKeys()
    ensures KeyIntent("ArrowUp") == Turn(Up) && KeyIntent("ArrowDown") == Turn(Down)
    ensures KeyIntent("ArrowLeft") == Turn(Left) && KeyIntent("ArrowRight") == Turn(Right)
  {
    assert Lower("ArrowUp") == "arrowup";
    assert Lower("ArrowDown") == "arrowdown";
    assert Lower("ArrowLeft") == "arrowleft";
    assert Lower("ArrowRight") == "arrowright";
  }

  /** W, A, S and D turn like the arrows, in either case. */
  lemma LetterKeys()
    ensures KeyIntent("w") == Turn(Up) && KeyIntent("W") == Turn(Up)
    ensures KeyIntent("s") == Turn(Down) && KeyIntent("S") == Turn(Down)
    ensures KeyIntent("a") == Turn(Left) && KeyIntent("A") == Turn(Left)
    ensures KeyIntent("d") == Turn(Right) && KeyIntent("D") == Turn(Right)
  {
    assert Lower("W") == "w" && Lower("S") == "s" && Lower("A") == "a" && Lower("D") == "d";
    assert Lower("w") == "w" && Lower("s") == "s" && Lower("a") == "a" && Lower("d") == "d";
  }

  /** R in either case restarts; other keys are ignored. */
  lemma OtherKeys()
    ensures KeyIntent("r") == NewGame && KeyIntent("R") == NewGame
    ensures KeyIntent("Enter") == NoIntent && KeyIntent("x") == NoIntent
  {
    assert Lower("R") == "r" && Lower("r") == "r" && Lower("x") == "x";
    assert Lower("Enter") == "enter";
  }

  /** A turn key overwrites the pending heading and nothing else. */
  lemma TurnKeySetsPending(s: State, key: string, pick: nat, sample: Sampler)
    requires pick < |Animals| && KeyIntent(key).Turn?
    ensures OnKey(s, key, pick, sample) == s.(nextDir := KeyIntent(key).heading)
  {
  }

  /** A turn only overwrites the pending heading, so of several key presses
      between two ticks only the last turn counts. */
  lemma LatestTurnWins(s: State, k1: string, k2: string, pick: nat, sample: Sampler)
    requires pick < |Animals| && KeyIntent(k1).Turn? && KeyIntent(k2).Turn?
    ensures OnKey(OnKey(s, k1, pick, sample), k2, pick, sample) == s.(nextDir := KeyIntent(k2).heading)
  {
  }

  /** R restarts at any time, also after the game is over. */
  lemma RestartKeyAnyTime(s: State, key: string, pick: nat, sample: Sampler)
    requires pick < |Animals| && KeyIntent(key) == NewGame
    ensures OnKey(s, key, pick, sample) == Restart(s, true, pick, sample)
    ensures OnKey(s, key, pick, sample).phase == Running
  {
  }
}
