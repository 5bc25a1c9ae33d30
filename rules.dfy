/** The game state as a value and the rules that change it: one tick of movement,
    a restart, food placement and the direction-change rule. */
module Rules {
  import opened Grid

  /** Snake body head first, the food cell, the stored heading and the game-over flag. */
  datatype Board = Board(snake: seq<Point>, food: Point, direction: Direction, gameOver: bool)

  /** Where a new snake starts. */
  const Start: Point := Point(10, 10)

  predicate AllInGrid(s: seq<Point>)
  {
    forall i :: 0 <= i < |s| ==> InGrid(s[i])
  }

  predicate Distinct(s: seq<Point>)
  {
    forall i, j :: 0 <= i < j < |s| ==> s[i] != s[j]
  }

  /** Each segment shares a side with the next one. */
  predicate Connected(s: seq<Point>)
  {
    forall i :: 0 <= i < |s| - 1 ==> Adjacent(s[i], s[i + 1])
  }

  /** What every board the game produces satisfies. */
  predicate Invariant(b: Board)
  {
    b.snake != [] && AllInGrid(b.snake) && Distinct(b.snake) && Connected(b.snake) && InGrid(b.food)
  }

  /** Food placed from two values of the random generator, each reduced modulo the grid size.
      The generator's values are never negative. */
  function FoodAt(rx: nat, ry: nat): (p: Point)
    ensures InGrid(p)
  {
    Point(rx % Width, ry % Height)
  }

  /** Every cell of the grid, including ones the snake covers, can receive the food. */
  lemma FoodCanLandAnywhere(p: Point)
    requires InGrid(p)
    ensures FoodAt(p.x, p.y) == p
  {
  }

  /** The board after a restart: one segment at the start cell heading right, fresh food. */
  function ResetBoard(rx: nat, ry: nat): (b: Board)
    ensures Invariant(b)
    ensures |b.snake| == 1 && !b.gameOver
  {
    Board([Start], FoodAt(rx, ry), Right, false)
  }

  /** The stored heading after an arrow key asks for `requested`: each key is refused
      only while the snake is heading the other way. */
  function Turn(current: Direction, requested: Direction): (r: Direction)
    ensures requested == Opposite(current) ==> r == current
    ensures requested != Opposite(current) ==> r == requested
    ensures r != Opposite(current)
  {
    match requested
    case Up => if current != Down then Up else current
    case Down => if current != Up then Down else current
    case Left => if current != Right then Left else current
    case Right => if current != Left then Right else current
  }

  /** A turn leaves the heading unchanged exactly when it asks for the opposite or the same heading. */
  lemma TurnIgnoredIff(current: Direction, requested: Direction)
    ensures Turn(current, requested) == current <==> requested == Opposite(current) || requested == current
  {
  }

  /** The cell the head moves into on the next tick. */
  function NextHead(b: Board): Point
    requires b.snake != []
  {
    NextCell(b.snake[0], b.direction)
  }

  /** One tick: nothing once the game is over; a crash into a wall or into any body
      segment (the tail included) ends the game; otherwise the head is pushed and
      either the food is eaten and replaced or the tail is dropped. */
  function UpdateBoard(b: Board, rx: nat, ry: nat): (r: Board)
    requires b.snake != []
    ensures b.gameOver ==> r == b
    ensures |b.snake| <= |r.snake| <= |b.snake| + 1
    ensures r.direction == b.direction
    ensures r.gameOver ==> r.snake == b.snake && r.food == b.food
    ensures !r.gameOver ==> r.snake[0] == NextHead(b) && r.snake[1..] <= b.snake
  {
    if b.gameOver then b
    else
      var head := NextHead(b);
      if head.x < 0 || head.y < 0 || head.x >= Width || head.y >= Height || head in b.snake then
        b.(gameOver := true)
      else
        var pushed := [head] + b.snake;
        if head == b.food then b.(snake := pushed, food := FoodAt(rx, ry))
        else b.(snake := pushed[..|pushed| - 1])
  }

  /** Once the game is over a tick changes nothing, so repeated ticks are idempotent. */
  lemma UpdateWhenOver(b: Board, rx: nat, ry: nat)
    requires b.snake != [] && b.gameOver
    ensures UpdateBoard(b, rx, ry) == b
    ensures UpdateBoard(UpdateBoard(b, rx, ry), rx, ry) == UpdateBoard(b, rx, ry)
  {
  }

  /** A crash is absorbing: after it, any further tick with any food draw changes nothing. */
  lemma CrashIsAbsorbing(b: Board, rx: nat, ry: nat, rx2: nat, ry2: nat)
    requires b.snake != []
    requires UpdateBoard(b, rx, ry).gameOver
    ensures UpdateBoard(UpdateBoard(b, rx, ry), rx2, ry2) == UpdateBoard(b, rx, ry)
  {
  }

  /** A head off the grid or on the body ends the game and leaves snake, food and heading alone. */
  lemma UpdateCrash(b: Board, rx: nat, ry: nat)
    requires b.snake != [] && !b.gameOver
    requires !InGrid(NextHead(b)) || NextHead(b) in b.snake
    ensures UpdateBoard(b, rx, ry) == b.(gameOver := true)
  {
  }

  /** Eating: the new head is prepended, nothing is dropped and the new food is on the grid. */
  lemma UpdateGrow(b: Board, rx: nat, ry: nat)
    requires b.snake != [] && !b.gameOver
    requires InGrid(NextHead(b)) && NextHead(b) !in b.snake && NextHead(b) == b.food
    ensures var r := UpdateBoard(b, rx, ry);
      r.snake == [NextHead(b)] + b.snake && |r.snake| == |b.snake| + 1 &&
      InGrid(r.food) && r.food == FoodAt(rx, ry) && r.direction == b.direction && !r.gameOver
  {
  }

  /** Moving: the new head is prepended and only the old tail is dropped; the food stays. */
  lemma UpdateMove(b: Board, rx: nat, ry: nat)
    requires b.snake != [] && !b.gameOver
    requires InGrid(NextHead(b)) && NextHead(b) !in b.snake && NextHead(b) != b.food
    ensures var r := UpdateBoard(b, rx, ry);
      r.snake == [NextHead(b)] + b.snake[..|b.snake| - 1] && |r.snake| == |b.snake| &&
      r.food == b.food && r.direction == b.direction && !r.gameOver
  {
  }

  function Count(c: bool): nat
  {
    if c then 1 else 0
  }

  /** On a live board exactly one of three things happens: the game ends with the body
      unchanged, the snake grows by one, or it keeps its length while moving. */
  lemma ExactlyOneOutcome(b: Board, rx: nat, ry: nat)
    requires b.snake != [] && !b.gameOver
    ensures var r := UpdateBoard(b, rx, ry);
      var ended := r.gameOver && r.snake == b.snake && r.food == b.food;
      var grew := !r.gameOver && r.snake == [NextHead(b)] + b.snake;
      var moved := !r.gameOver && r.snake == [NextHead(b)] + b.snake[..|b.snake| - 1];
      Count(ended) + Count(grew) + Count(moved) == 1
  {
  }

  /** The body stays nonempty, on the grid, free of repeated cells and connected, and the food
      stays on the grid: the new head is bounds-checked and looked up in the body before it is pushed. */
  lemma UpdatePreservesInvariant(b: Board, rx: nat, ry: nat)
    requires Invariant(b)
    ensures Invariant(UpdateBoard(b, rx, ry))
  {
  }

  /** With the stored heading being the one the head last moved in, a single accepted or
      refused turn never sends the head back into the segment behind it. */
  lemma SingleTurnAvoidsNeck(b: Board, d: Direction, requested: Direction)
    requires |b.snake| >= 2 && b.snake[0] == NextCell(b.snake[1], d) && b.direction == d
    ensures NextCell(b.snake[0], Turn(d, requested)) != b.snake[1]
  {
  }

  /** Two accepted turns between ticks can reverse the heading: a two-segment snake heading
      right, turned up and then left, runs into its own neck and the game ends. */
  lemma DoubleTurnHitsNeck(rx: nat, ry: nat)
    ensures var b := Board([Point(11, 10), Point(10, 10)], Point(20, 20), Right, false);
      var turned := b.(direction := Turn(Turn(Right, Up), Left));
      turned.direction == Left && UpdateBoard(turned, rx, ry).gameOver
  {
  }

  /** A step off the left edge ends the game and leaves the snake where it was. */
  lemma LeftWallScenario(rx: nat, ry: nat)
    ensures var b := Board([Point(0, 5)], Point(20, 20), Left, false);
      UpdateBoard(b, rx, ry) == b.(gameOver := true)
  {
  }

  /** A fresh snake heading right onto the food grows to two segments and the food moves. */
  lemma GrowthScenario(rx: nat, ry: nat)
    ensures var b := ResetBoard(0, 0).(food := Point(11, 10));
      var r := UpdateBoard(b, rx, ry);
      r.snake == [Point(11, 10), Point(10, 10)] && r.food == FoodAt(rx, ry) && !r.gameOver
  {
  }

  /** A two-segment snake moving right drops its old tail. */
  lemma MoveScenario(rx: nat, ry: nat)
    ensures var b := Board([Point(5, 5), Point(4, 5)], Point(20, 20), Right, false);
      UpdateBoard(b, rx, ry).snake == [Point(6, 5), Point(5, 5)]
  {
  }
}
