/**
 * The plain-data snapshots that cross the thread boundary between the
 * worker (GameEngineMultithreading.js) and its controller. Engine objects
 * cannot be posted, so the worker posts copies (`copySnakes`, `copyGrid`)
 * and the receiving side rehydrates them (`parseSnakes`, and the loop in the
 * controller's message handler). Object identity is not modelled: a snake's
 * `grid` holds the grid value it refers to.
 */
module Snapshot {
  import opened Wrappers
  import opened JsValues

  datatype Pos = Pos(x: int, y: int)

  /** `GameConstants.PlayerType`. */
  datatype PlayerType = Human | Ai | HybridHumanAi

  /** A snakeia grid. The two random generators are null in every posted copy. */
  datatype Grid = Grid(width: int, height: int, cells: seq<int>, rngGrid: Option<int>, rngGame: Option<int>)

  /**
   * A snakeia snake, restricted to the fields the bridge copies, plus
   * `lastKey` (never copied) and the AI's level text.
   */
  datatype Snake = Snake(
    color: int, direction: int, errorInit: bool, gameOver: bool, autoRetry: bool, aiLevel: int,
    lastTail: Option<Pos>, lastHead: Option<Pos>, lastTailMoved: bool, lastHeadMoved: bool,
    name: string, player: PlayerType, queue: seq<Pos>, score: int, scoreMax: bool,
    ticksDead: int, ticksWithoutAction: int,
    grid: Option<Grid>, lastKey: Value, aiLevelText: Option<string>)

  /**
   * `new Grid()` and `new Snake()` with no arguments. Their field values are
   * snakeia's defaults; only the fields the bridge relies on are fixed here:
   * a fresh snake has no grid, no pending key, no tail or head, an empty queue.
   */
  const NewGrid: Grid := Grid(20, 20, [], None, None)
  const NewSnake: Snake := Snake(0, 0, false, false, false, 0, None, None, false, false, "", Human, [], 0, false, 0, 0, None, Undefined, None)

  /** The snake as the other thread sees it: everything but its grid, pending key and AI text. */
  predicate SameCopiedFields(a: Snake, b: Snake) {
    && a.color == b.color && a.direction == b.direction && a.errorInit == b.errorInit
    && a.gameOver == b.gameOver && a.autoRetry == b.autoRetry && a.aiLevel == b.aiLevel
    && a.lastTail == b.lastTail && a.lastHead == b.lastHead
    && a.lastTailMoved == b.lastTailMoved && a.lastHeadMoved == b.lastHeadMoved
    && a.name == b.name && a.player == b.player && a.queue == b.queue
    && a.score == b.score && a.scoreMax == b.scoreMax
    && a.ticksDead == b.ticksDead && a.ticksWithoutAction == b.ticksWithoutAction
  }

  /** `if(snake.snakeAI && snake.snakeAI.aiLevelText)`: a non-empty level text. */
  predicate TruthyText(t: Option<string>) {
    t.Some? && t.value != ""
  }

  /** One snake of `copySnakes` (GameEngineMultithreading.js:35-69). */
  function CopySnake(s: Snake): (r: Snake)
    ensures SameCopiedFields(r, s)
    ensures r.grid == None && r.lastKey == NewSnake.lastKey
    ensures r.aiLevelText == (if TruthyText(s.aiLevelText) then s.aiLevelText else NewSnake.aiLevelText)
  {
    var base := NewSnake.(
      color := s.color, direction := s.direction, errorInit := s.errorInit, gameOver := s.gameOver,
      autoRetry := s.autoRetry, aiLevel := s.aiLevel,
      lastTailMoved := s.lastTailMoved, lastHeadMoved := s.lastHeadMoved, name := s.name, player := s.player,
      score := s.score, scoreMax := s.scoreMax, ticksDead := s.ticksDead, ticksWithoutAction := s.ticksWithoutAction,
      grid := None);
    var withTail := if s.lastTail.Some? then base.(lastTail := s.lastTail) else base;
    var withHead := if s.lastHead.Some? then withTail.(lastHead := s.lastHead) else withTail;
    var withQueue := withHead.(queue := s.queue);
    if TruthyText(s.aiLevelText) then withQueue.(aiLevelText := s.aiLevelText) else withQueue
  }

  /**
   * `copySnakes(snakes)`: null entries are dropped, the others copied in
   * order; a null list gives [].
   */
  function CopySnakes(snakes: Option<seq<Option<Snake>>>): (r: seq<Snake>)
    ensures snakes.None? ==> r == []
    ensures snakes.Some? ==> |r| == CountPresent(snakes.value)
    ensures snakes.Some? ==> forall i :: 0 <= i < |r| ==> r[i] == CopySnake(snakes.value[PresentAt(snakes.value)[i]].value)
  {
    if snakes.None? then []
    else
      CopyPresentAt(snakes.value);
      CopyPresent(snakes.value)
  }

  function CountPresent(s: seq<Option<Snake>>): nat {
    if |s| == 0 then 0 else (if s[0].Some? then 1 else 0) + CountPresent(s[1..])
  }

  /** Add one to every index. */
  function Shift(t: seq<nat>): (r: seq<nat>)
    ensures |r| == |t| && forall i :: 0 <= i < |t| ==> r[i] == t[i] + 1
  {
    seq(|t|, i requires 0 <= i < |t| => t[i] + 1)
  }

  /**
   * The positions of the non-null entries, in increasing order: the i-th
   * copy comes from entry `PresentAt(s)[i]`.
   */
  function PresentAt(s: seq<Option<Snake>>): (r: seq<nat>)
    ensures |r| == CountPresent(s)
    ensures forall i :: 0 <= i < |r| ==> r[i] < |s| && s[r[i]].Some?
    ensures forall i, j :: 0 <= i < j < |r| ==> r[i] < r[j]
  {
    if |s| == 0 then []
    else if s[0].Some? then [0] + Shift(PresentAt(s[1..]))
    else Shift(PresentAt(s[1..]))
  }

  /** Every non-null entry is copied: its position is among `PresentAt`. */
  lemma {:induction false} PresentAtCoversAll(s: seq<Option<Snake>>, j: nat)
    requires j < |s| && s[j].Some?
    ensures exists i :: 0 <= i < |PresentAt(s)| && PresentAt(s)[i] == j
    decreases |s|
  {
    if j == 0 {
      assert PresentAt(s)[0] == 0;
    } else {
      PresentAtCoversAll(s[1..], j - 1);
      var i :| 0 <= i < |PresentAt(s[1..])| && PresentAt(s[1..])[i] == j - 1;
      if s[0].Some? {
        assert PresentAt(s)[i + 1] == j;
      } else {
        assert PresentAt(s)[i] == j;
      }
    }
  }

  /** The non-null entries, copied, in order. */
  function CopyPresent(s: seq<Option<Snake>>): (r: seq<Snake>)
    ensures |r| == CountPresent(s)
  {
    if |s| == 0 then []
    else if s[0].Some? then [CopySnake(s[0].value)] + CopyPresent(s[1..])
    else CopyPresent(s[1..])
  }

  /** The i-th copy is the copy of the i-th non-null entry. */
  lemma {:induction false} CopyPresentAt(s: seq<Option<Snake>>)
    ensures forall i :: 0 <= i < |CopyPresent(s)| ==> CopyPresent(s)[i] == CopySnake(s[PresentAt(s)[i]].value)
    decreases |s|
  {
    if |s| > 0 {
      CopyPresentAt(s[1..]);
      var rest := CopyPresent(s[1..]);
      var at := PresentAt(s[1..]);
      if s[0].Some? {
        assert PresentAt(s) == [0] + Shift(at);
        assert CopyPresent(s) == [CopySnake(s[0].value)] + rest;
        forall i | 0 < i < |CopyPresent(s)|
          ensures CopyPresent(s)[i] == CopySnake(s[PresentAt(s)[i]].value)
        {
          assert CopyPresent(s)[i] == rest[i - 1];
          assert PresentAt(s)[i] == at[i - 1] + 1;
        }
      } else {
        assert PresentAt(s) == Shift(at);
        assert CopyPresent(s) == rest;
      }
    }
  }

  /** A list without null entries is copied position by position. */
  lemma {:induction false} CopyDenseList(s: seq<Snake>)
    ensures var r := CopySnakes(Some(LiftSnakes(s)));
            |r| == |s| && forall i :: 0 <= i < |s| ==> r[i] == CopySnake(s[i])
    decreases |s|
  {
    if |s| > 0 {
      CopyDenseList(s[1..]);
      assert LiftSnakes(s)[1..] == LiftSnakes(s[1..]);
    }
  }

  function LiftSnakes(s: seq<Snake>): (r: seq<Option<Snake>>)
    ensures |r| == |s| && forall i :: 0 <= i < |s| ==> r[i] == Some(s[i])
  {
    seq(|s|, i requires 0 <= i < |s| => Some(s[i]))
  }

  /** `copyGrid(grid)` (79-88): a JSON copy whose random generators are cleared; a null grid stays null. */
  function CopyGrid(grid: Option<Grid>): (r: Option<Grid>)
    ensures r.None? <==> grid.None?
    ensures r.Some? ==> r.value == grid.value.(rngGrid := None, rngGame := None)
  {
    match grid
    case None => None
    case Some(g) => Some(g.(rngGrid := None, rngGame := None))
  }

  /** Copying a copy changes nothing. */
  lemma CopyGridIdempotent(grid: Option<Grid>)
    ensures CopyGrid(CopyGrid(grid)) == CopyGrid(grid)
  {
  }

  /**
   * The snakes argument of `parseSnakes`: absent or null, an array, or a
   * single snake object, which `parseSnakes` wraps in an array.
   */
  datatype SnakesArg = Nullish | List(snakes: seq<Snake>) | Single(snake: Snake)

  /** `Object.assign(new Snake(), snake)` followed by binding the shared grid. */
  function Rehydrate(s: Snake, grid: Grid): (r: Snake)
    ensures r == s.(grid := Some(grid))
  {
    s.(grid := Some(grid))
  }

  function RehydrateAll(snakes: seq<Snake>, grid: Grid): (r: seq<Snake>)
    ensures |r| == |snakes|
    ensures forall i :: 0 <= i < |r| ==> r[i].grid == Some(grid) && SameCopiedFields(r[i], snakes[i])
                                         && r[i].lastKey == snakes[i].lastKey && r[i].aiLevelText == snakes[i].aiLevelText
  {
    seq(|snakes|, i requires 0 <= i < |snakes| => Rehydrate(snakes[i], grid))
  }

  /** The parts of the running engine `parseSnakes` falls back on. */
  datatype EngineView = EngineView(grid: Grid, snakes: seq<Snake>)

  /**
   * `parseSnakes(snakes, grid)` (90-103). With an engine, a missing grid or
   * snake list falls back on the engine's; without one, a missing grid is a
   * fresh grid and a missing list becomes `[undefined]`, one fresh snake.
   * Every resulting snake shares the resulting grid.
   */
  function ParseSnakes(snakes: SnakesArg, grid: Option<Grid>, game: Option<EngineView>): (r: (Grid, seq<Snake>))
    ensures grid.Some? ==> r.0 == grid.value
    ensures grid.None? ==> r.0 == (if game.Some? then game.value.grid else NewGrid)
    ensures forall i :: 0 <= i < |r.1| ==> r.1[i].grid == Some(r.0)
    ensures snakes.List? ==> r.1 == RehydrateAll(snakes.snakes, r.0)
    ensures snakes.Single? ==> r.1 == [Rehydrate(snakes.snake, r.0)]
    ensures snakes.Nullish? && game.Some? ==> r.1 == RehydrateAll(game.value.snakes, r.0)
    ensures snakes.Nullish? && game.None? ==> r.1 == [NewSnake.(grid := Some(r.0))]
  {
    var gridCopy := if grid.Some? then grid.value else if game.Some? then game.value.grid else NewGrid;
    var list := match snakes
      case List(l) => l
      case Single(one) => [one]
      case Nullish => if game.Some? then game.value.snakes else [NewSnake];
    (gridCopy, RehydrateAll(list, gridCopy))
  }

  /**
   * What crosses the boundary is enough: rehydrating the copies of a list of
   * snakes with the copied grid gives one snake per non-null entry, in
   * order, with that entry's copied fields, all sharing one grid whose
   * generators are cleared.
   */
  lemma SnapshotRoundTrip(snakes: seq<Option<Snake>>, grid: Grid)
    ensures var copies := CopySnakes(Some(snakes));
            var g := CopyGrid(Some(grid)).value;
            var (g', back) := ParseSnakes(List(copies), Some(g), None);
            && g' == grid.(rngGrid := None, rngGame := None)
            && |back| == CountPresent(snakes)
            && forall i :: 0 <= i < |back| ==>
                 SameCopiedFields(back[i], snakes[PresentAt(snakes)[i]].value) && back[i].grid == Some(g')
  {
  }

  /** A list without null entries comes back whole, position by position. */
  lemma DenseSnapshotRoundTrip(snakes: seq<Snake>, grid: Grid)
    ensures var copies := CopySnakes(Some(LiftSnakes(snakes)));
            var (g', back) := ParseSnakes(List(copies), CopyGrid(Some(grid)), None);
            && |back| == |snakes|
            && forall i :: 0 <= i < |snakes| ==> SameCopiedFields(back[i], snakes[i]) && back[i].grid == Some(g')
  {
    CopyDenseList(snakes);
  }
}
