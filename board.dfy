/** Placing the letters of a word on random cells of the board.

    Each letter draws random cells until it finds one that is neither on the
    snake nor taken by an earlier letter of the same word. After 5000 draws
    for one letter the search gives up, and the letter takes the NEXT draw,
    whatever is there: it may land on the snake or replace an earlier letter.
    The random cells are given as a stream `sample`, draw n being sample(n). */
module Board {
  import opened Grid

  /** Draws a letter may reject before it takes the next draw unchecked. */
  const RetryCap: nat := 5000

  type Sampler = nat -> Point

  /** The random source only produces cells of the board. */
  ghost predicate SamplesInGrid(sample: Sampler) {
    forall n: nat :: InGrid(sample(n))
  }

  /** A placed letter: its character and its position in the word. */
  datatype Letter = Letter(ch: char, index: int)

  /** Draws n, n+1, ..., n+count-1 of the random source. */
  function Draws(sample: Sampler, n: nat, count: nat): (d: seq<Point>)
    ensures |d| == count && forall j :: 0 <= j < count ==> d[j] == sample(n + j)
  {
    seq(count, j requires 0 <= j < count => sample(n + j))
  }

  /** Position of the first cell of `draws` not in `used`, or |draws| when
      there is none. */
  function FirstFree(draws: seq<Point>, used: set<Point>): (r: nat)
    ensures r <= |draws|
    ensures r < |draws| ==> draws[r] !in used
    ensures forall j :: 0 <= j < r ==> draws[j] in used
  {
    if draws == [] then 0
    else if draws[0] !in used then 0
    else 1 + FirstFree(draws[1..], used)
  }

  /** The draw a letter settles on when it is at draw `n` of a search that
      gives up at draw `stop`: the first free draw before `stop`, else the
      draw `stop` itself, free or not. */
  function Settle(used: set<Point>, sample: Sampler, n: nat, stop: nat): (k: nat)
    requires n <= stop
    ensures n <= k <= stop
    ensures k < stop ==> sample(k) !in used
  {
    n + FirstFree(Draws(sample, n, stop - n), used)
  }

  /** One round of the search: a taken draw before `stop` is skipped. */
  lemma SettleStep(used: set<Point>, sample: Sampler, n: nat, stop: nat)
    requires n < stop && sample(n) in used
    ensures Settle(used, sample, n, stop) == Settle(used, sample, n + 1, stop)
  {
    var d := Draws(sample, n, stop - n);
    assert d[1..] == Draws(sample, n + 1, stop - n - 1);
  }

  /** Every draw before the settled one hit a taken cell: the search takes
      the first free cell it draws. */
  lemma {:induction false} SettleSkipsTaken(used: set<Point>, sample: Sampler, n: nat, stop: nat)
    requires n <= stop
    ensures forall j: nat :: n <= j < Settle(used, sample, n, stop) ==> sample(j) in used
    decreases stop - n
  {
    if n < stop && sample(n) in used {
      SettleStep(used, sample, n, stop);
      SettleSkipsTaken(used, sample, n + 1, stop);
    }
  }

  /** The draw a letter takes when its search starts at draw `n`: at most
      RetryCap draws are rejected. */
  function Search(used: set<Point>, sample: Sampler, n: nat): (k: nat)
    ensures n <= k <= n + RetryCap
    ensures k < n + RetryCap ==> sample(k) !in used
  {
    Settle(used, sample, n, n + RetryCap)
  }

  /** Where the placement stands after `count` letters: the cells taken
      so far, the number of the next draw, and the cells chosen in order. */
  datatype Progress = Progress(used: set<Point>, next: nat, cells: seq<Point>)

  /** The placement after `count` letters when the cells `taken` were taken
      at the start: each letter takes the cell its search settles on, which
      then counts as taken. */
  function Chosen(count: nat, taken: set<Point>, sample: Sampler): (p: Progress)
    ensures |p.cells| == count
    decreases count
  {
    if count == 0 then Progress(taken, 0, [])
    else
      var q := Chosen(count - 1, taken, sample);
      var k := Search(q.used, sample, q.next);
      Progress(q.used + {sample(k)}, k + 1, q.cells + [sample(k)])
  }

  /** Each of the first `count` letters found a free cell within its first
      5000 draws. This is stricter than "every letter landed on a free cell":
      a letter whose first 5000 draws are taken but whose 5001st draw happens
      to be free lands on a free cell, yet the condition fails for it, and
      the lemmas that assume it say nothing about such a placement. */
  predicate WithinCap(count: nat, taken: set<Point>, sample: Sampler)
    decreases count
  {
    count == 0 ||
    (WithinCap(count - 1, taken, sample) &&
     var q := Chosen(count - 1, taken, sample);
     Search(q.used, sample, q.next) < q.next + RetryCap)
  }

  /** The letter map after letter j has been written at cells[j], in order,
      a later write replacing an earlier one on the same cell. */
  function Layout(word: string, cells: seq<Point>): map<Point, Letter>
    requires |cells| <= |word|
    decreases |cells|
  {
    if cells == [] then map[]
    else
      var j := |cells| - 1;
      Layout(word, cells[..j])[cells[j] := Letter(word[j], j)]
  }

  function CellSet(body: seq<Point>): set<Point> {
    set c | c in body
  }

  /** The letter map for `word` when the snake occupies `body`. */
  function Place(word: string, body: seq<Point>, sample: Sampler): map<Point, Letter> {
    Layout(word, Chosen(|word|, CellSet(body), sample).cells)
  }

  predicate Distinct(cells: seq<Point>) {
    forall i, j :: 0 <= i < j < |cells| ==> cells[i] != cells[j]
  }

  /** A cell appended to a sequence joins its cell set. */
  lemma CellSetSnoc(cells: seq<Point>)
    requires cells != []
    ensures CellSet(cells) == CellSet(cells[..|cells| - 1]) + {cells[|cells| - 1]}
  {
    var j := |cells| - 1;
    forall c | c in cells ensures c in cells[..j] || c == cells[j] {
      var i :| 0 <= i < |cells| && cells[i] == c;
      if i < j { assert cells[..j][i] == c; }
    }
  }

  /** Whatever was drawn, the entries are exactly the chosen cells. */
  lemma {:induction false} LayoutKeys(word: string, cells: seq<Point>)
    requires |cells| <= |word|
    ensures Layout(word, cells).Keys == CellSet(cells)
    decreases |cells|
  {
    if cells != [] {
      LayoutKeys(word, cells[..|cells| - 1]);
      CellSetSnoc(cells);
    } else {
      assert CellSet(cells) == {};
    }
  }

  /** Every entry of `m` holds the character of `word` at its index and
      sits on the cell chosen for that index. */
  predicate EntriesFit(m: map<Point, Letter>, word: string, cells: seq<Point>) {
    forall c :: c in m ==>
      0 <= m[c].index < |cells| && m[c].index < |word| && m[c].ch == word[m[c].index] && cells[m[c].index] == c
  }

  /** Whatever was drawn, the entries fit the word and the chosen cells. */
  lemma {:induction false} LayoutEntries(word: string, cells: seq<Point>)
    requires |cells| <= |word|
    ensures EntriesFit(Layout(word, cells), word, cells)
    decreases |cells|
  {
    if cells != [] {
      var j := |cells| - 1;
      LayoutEntries(word, cells[..j]);
      var prev := Layout(word, cells[..j]);
      forall c | c in prev ensures 0 <= prev[c].index < j && cells[prev[c].index] == c {
        assert cells[..j][prev[c].index] == c;
      }
    }
  }

  /** Indices are never shared between two entries. */
  lemma LayoutIndicesDistinct(word: string, cells: seq<Point>)
    requires |cells| <= |word|
    ensures var m := Layout(word, cells);
      forall c, d :: c in m && d in m && c != d ==> m[c].index != m[d].index
  {
    LayoutEntries(word, cells);
  }

  /** On distinct cells nothing is replaced: the map holds exactly one entry
      per index, at the cell chosen for it. */
  lemma {:induction false} LayoutOfDistinct(word: string, cells: seq<Point>)
    requires |cells| <= |word| && Distinct(cells)
    ensures var m := Layout(word, cells);
      |m| == |cells| &&
      forall i :: 0 <= i < |cells| ==> cells[i] in m && m[cells[i]] == Letter(word[i], i)
    decreases |cells|
  {
    if cells != [] {
      var j := |cells| - 1;
      LayoutOfDistinct(word, cells[..j]);
      LayoutEntries(word, cells[..j]);
      var prev := Layout(word, cells[..j]);
      assert cells[j] !in prev;
    }
  }

  /** The taken cells are the cells taken at the start and the chosen ones. */
  lemma {:induction false} ChosenUsed(count: nat, taken: set<Point>, sample: Sampler)
    ensures Chosen(count, taken, sample).used == taken + CellSet(Chosen(count, taken, sample).cells)
    decreases count
  {
    if count > 0 {
      var q := Chosen(count - 1, taken, sample);
      ChosenUsed(count - 1, taken, sample);
      var c := sample(Search(q.used, sample, q.next));
      assert CellSet(q.cells + [c]) == CellSet(q.cells) + {c};
    } else {
      assert CellSet([]) == {};
    }
  }

  /** The chosen cells are drawn cells, so they are on the board. */
  lemma {:induction false} ChosenInGrid(count: nat, taken: set<Point>, sample: Sampler)
    requires SamplesInGrid(sample)
    ensures forall j :: 0 <= j < count ==> InGrid(Chosen(count, taken, sample).cells[j])
    decreases count
  {
    if count > 0 {
      var q := Chosen(count - 1, taken, sample);
      ChosenInGrid(count - 1, taken, sample);
      var c := sample(Search(q.used, sample, q.next));
      var cells := Chosen(count, taken, sample).cells;
      assert cells == q.cells + [c];
      forall j | 0 <= j < count ensures InGrid(cells[j]) {
        if j < count - 1 {
          assert cells[j] == q.cells[j];
        }
      }
    }
  }

  /** When every letter finds a free cell in time, the chosen cells are
      distinct and none of them was taken at the start. */
  lemma {:induction false} ChosenFresh(count: nat, taken: set<Point>, sample: Sampler)
    requires WithinCap(count, taken, sample)
    ensures Distinct(Chosen(count, taken, sample).cells)
    ensures Avoids(Chosen(count, taken, sample).cells, taken)
    decreases count
  {
    if count > 0 {
      var q := Chosen(count - 1, taken, sample);
      ChosenFresh(count - 1, taken, sample);
      ChosenUsed(count - 1, taken, sample);
      var c := sample(Search(q.used, sample, q.next));
      assert c !in taken + CellSet(q.cells);
      AppendFresh(q.cells, c, taken);
    } else {
      assert Chosen(0, taken, sample).cells == [];
    }
  }

  /** None of `cells` is in `used`. */
  predicate Avoids(cells: seq<Point>, used: set<Point>) {
    forall j :: 0 <= j < |cells| ==> cells[j] !in used
  }

  /** A cell that is neither taken nor chosen yet keeps the chosen cells
      distinct and free. */
  lemma AppendFresh(cells: seq<Point>, c: Point, taken: set<Point>)
    requires Distinct(cells) && Avoids(cells, taken) && c !in taken + CellSet(cells)
    ensures Distinct(cells + [c]) && Avoids(cells + [c], taken)
  {
    var all := cells + [c];
    forall a, b | 0 <= a < b < |all| ensures all[a] != all[b] {
      assert all[a] == cells[a];
      if b == |cells| {
        assert cells[a] in CellSet(cells);
      }
    }
  }

  /** Placement when every letter finds a free cell within the retry cap:
      one entry per index holding that letter of the word, on distinct cells
      of the board, none of them a snake cell. */
  lemma PlaceWithinCap(word: string, body: seq<Point>, sample: Sampler)
    requires SamplesInGrid(sample) && WithinCap(|word|, CellSet(body), sample)
    ensures var m := Place(word, body, sample);
      |m| == |word| &&
      (forall i :: 0 <= i < |word| ==> Letter(word[i], i) in m.Values) &&
      (forall c :: c in m ==> InGrid(c) && c !in body)
  {
    var cells := Chosen(|word|, CellSet(body), sample).cells;
    ChosenFresh(|word|, CellSet(body), sample);
    assert forall j :: 0 <= j < |cells| ==> cells[j] !in CellSet(body);
    ChosenInGrid(|word|, CellSet(body), sample);
    LayoutOfDistinct(word, cells);
    LayoutEntries(word, cells);
    var m := Place(word, body, sample);
    forall i | 0 <= i < |word| ensures Letter(word[i], i) in m.Values {
      assert m[cells[i]] == Letter(word[i], i);
    }
    forall c | c in m ensures InGrid(c) && c !in body {
      var i := m[c].index;
      assert cells[i] == c;
    }
  }

  /** Placement in general, the cap reached or not: every entry is on the
      board and holds the letter of the word at its index, no index twice. */
  lemma PlaceWellFormed(word: string, body: seq<Point>, sample: Sampler)
    requires SamplesInGrid(sample)
    ensures var m := Place(word, body, sample);
      |m| <= |word| &&
      (forall c :: c in m ==> InGrid(c) && 0 <= m[c].index < |word| && m[c].ch == word[m[c].index]) &&
      (forall c, d :: c in m && d in m && c != d ==> m[c].index != m[d].index)
  {
    var cells := Chosen(|word|, CellSet(body), sample).cells;
    ChosenInGrid(|word|, CellSet(body), sample);
    LayoutKeys(word, cells);
    LayoutEntries(word, cells);
    LayoutIndicesDistinct(word, cells);
    var m := Place(word, body, sample);
    CellSetSize(cells);
    assert m.Keys == CellSet(cells);
    forall c | c in m ensures InGrid(c) {
      assert cells[m[c].index] == c;
    }
  }

  lemma {:induction false} CellSetSize(cells: seq<Point>)
    ensures |CellSet(cells)| <= |cells|
    decreases |cells|
  {
    if cells != [] {
      CellSetSize(cells[..|cells| - 1]);
      CellSetSnoc(cells);
    } else {
      assert CellSet(cells) == {};
    }
  }

  /** When the first 5000 draws of a letter all hit taken cells, the letter
      takes the 5001st draw, even when that cell is taken too. */
  lemma CapTakesNextDraw(used: set<Point>, sample: Sampler, n: nat)
    requires forall j: nat :: n <= j <= n + RetryCap ==> sample(j) in used
    ensures Search(used, sample, n) == n + RetryCap
    ensures sample(Search(used, sample, n)) in used
  {
    AllTakenReachesStop(used, sample, n, n + RetryCap);
  }

  lemma {:induction false} AllTakenReachesStop(used: set<Point>, sample: Sampler, n: nat, stop: nat)
    requires n <= stop
    requires forall j: nat :: n <= j < stop ==> sample(j) in used
    ensures Settle(used, sample, n, stop) == stop
    decreases stop - n
  {
    if n < stop {
      SettleStep(used, sample, n, stop);
      AllTakenReachesStop(used, sample, n + 1, stop);
    } else {
      assert Draws(sample, n, 0) == [];
    }
  }

  /** With a random source that keeps returning one taken cell, every
      letter gives up after the cap and takes that cell. */
  lemma {:induction false} ConstantSourceChosen(count: nat, taken: set<Point>, sample: Sampler, c: Point)
    requires c in taken && forall n: nat :: sample(n) == c
    ensures var p := Chosen(count, taken, sample);
      p.used == taken && p.next == count * (RetryCap + 1) &&
      forall j :: 0 <= j < count ==> p.cells[j] == c
    decreases count
  {
    if count > 0 {
      var q := Chosen(count - 1, taken, sample);
      ConstantSourceChosen(count - 1, taken, sample, c);
      CapTakesNextDraw(q.used, sample, q.next);
      var p := Chosen(count, taken, sample);
      assert p.cells == q.cells + [c];
    }
  }

  /** So the code does not leave a letter unplaced: with a random source
      that keeps returning a snake cell, the search is never within the cap,
      and all letters land on that cell, the last one written staying. */
  lemma CapPlacesOnSnake(word: string, body: seq<Point>, sample: Sampler, c: Point)
    requires |word| > 0 && c in body && forall n: nat :: sample(n) == c
    ensures Place(word, body, sample) == map[c := Letter(word[|word| - 1], |word| - 1)]
    ensures !WithinCap(1, CellSet(body), sample)
  {
    var taken := CellSet(body);
    var j := |word| - 1;
    ConstantSourceChosen(|word|, taken, sample, c);
    ConstantSourceChosen(0, taken, sample, c);
    CapTakesNextDraw(taken, sample, 0);
    var cells := Chosen(|word|, taken, sample).cells;
    LayoutKeys(word, cells[..j]);
    var prev := Layout(word, cells[..j]);
    forall d | d in prev ensures d == c {
      var i :| 0 <= i < j && cells[..j][i] == d;
    }
    assert Layout(word, cells) == prev[c := Letter(word[j], j)];
  }
}
