/** The game object: its fields are updated in place by restart, tick and input handling,
    each proved against the matching rule of Rules and Control. */
module Game {
  import opened Grid
  import opened Rules
  import opened Control

  /** Linear search from the front of the body, as the standard library's find does:
      the index of the first segment equal to `p`, or `|body|` (the end) if there is none. */
  method Find(body: seq<Point>, p: Point) returns (i: nat)
    ensures i <= |body|
    ensures i < |body| ==> body[i] == p
    ensures forall k :: 0 <= k < i ==> body[k] != p
    ensures i == |body| <==> p !in body
  {
    i := 0;
    while i < |body| && !SamePoint(body[i], p)
      invariant i <= |body|
      invariant forall k :: 0 <= k < i ==> body[k] != p
    {
      i := i + 1;
    }
  }

  class SnakeGame {
    var snake: seq<Point>
    var food: Point
    var direction: Direction
    var gameOver: bool
    var state: GameState
    /** Local to the main loop in the game; kept here so that input handling can stop it. */
    var running: bool
    /** Local to the main loop in the game: the clock reading at the last tick. */
    var lastUpdate: Ticks

    function Model(): Board
      reads this
    {
      Board(snake, food, direction, gameOver)
    }

    function Snapshot(): Session
      reads this
    {
      Session(Model(), state, running, lastUpdate)
    }

    predicate Valid()
      reads this
    {
      Invariant(Model())
    }

    /** Start-up: the menu is showing and the board is reset; the main loop starts at `startTicks`. */
    constructor (rx: nat, ry: nat, startTicks: Ticks)
      ensures Snapshot() == StartSession(rx, ry, startTicks)
      ensures Valid()
    {
      state := Menu;
      running := true;
      lastUpdate := startTicks;
      gameOver := false;
      new;
      Reset(rx, ry);
    }

    method SpawnFood(rx: nat, ry: nat)
      modifies this`food
      ensures food == FoodAt(rx, ry) && InGrid(food)
    {
      food := Point(rx % Width, ry % Height);
    }

    method Reset(rx: nat, ry: nat)
      modifies this
      ensures Model() == ResetBoard(rx, ry) && Valid()
      ensures state == old(state) && running == old(running) && lastUpdate == old(lastUpdate)
    {
      snake := [];
      snake := snake + [Start];
      direction := Right;
      SpawnFood(rx, ry);
      gameOver := false;
    }

    /** One tick of the game. */
    method Update(rx: nat, ry: nat)
      requires snake != []
      modifies this
      ensures Model() == UpdateBoard(old(Model()), rx, ry)
      ensures old(Valid()) ==> Valid()
      ensures state == old(state) && running == old(running) && lastUpdate == old(lastUpdate)
    {
      ghost var before := Model();
      if gameOver {
        return;
      }
      var head := snake[0];
      match direction {
        case Up => head := head.(y := head.y - 1);
        case Down => head := head.(y := head.y + 1);
        case Left => head := head.(x := head.x - 1);
        case Right => head := head.(x := head.x + 1);
      }
      assert head == NextHead(before);

      var crash := head.x < 0 || head.y < 0 || head.x >= Width || head.y >= Height;
      if !crash {
        var at := Find(snake, head);
        crash := at != |snake|;
      }
      if crash {
        gameOver := true;
        return;
      }

      snake := [head] + snake;
      if SamePoint(head, food) {
        SpawnFood(rx, ry);
      } else {
        snake := snake[..|snake| - 1];
      }
      if Invariant(before) {
        UpdatePreservesInvariant(before, rx, ry);
      }
    }

    /** One input event as the main loop handles it. */
    method HandleEvent(e: Event, rx: nat, ry: nat)
      modifies this
      ensures Snapshot() == OnEvent(old(Snapshot()), e, rx, ry)
      ensures old(Valid()) ==> Valid()
    {
      ghost var before := Snapshot();
      if e.QuitEvent? {
        running := false;
      }
      if state == Menu {
        if e.KeyPress? {
          if e.key == Return {
            Reset(rx, ry);
            state := Playing;
          } else if e.key == Escape {
            running := false;
          }
        }
      } else if state == Playing {
        if e.KeyPress? {
          match e.key {
            case ArrowUp => if direction != Down { direction := Up; }
            case ArrowDown => if direction != Up { direction := Down; }
            case ArrowLeft => if direction != Right { direction := Left; }
            case ArrowRight => if direction != Left { direction := Right; }
            case LetterR => if gameOver { Reset(rx, ry); }
            case Escape => state := Menu;
            case _ =>
          }
        }
      }
      if Invariant(before.board) {
        EventPreservesInvariant(before, e, rx, ry);
      }
    }

    /** The clock check at the end of a main-loop iteration: while playing, tick once more
        than 140 ms (unsigned difference) have passed since the last tick. */
    method Tick(now: Ticks, rx: nat, ry: nat)
      requires snake != []
      modifies this
      ensures Snapshot() == OnTick(old(Snapshot()), now, rx, ry)
      ensures old(Valid()) ==> Valid()
    {
      if state == Playing && Elapsed(now, lastUpdate) > TickInterval {
        Update(rx, ry);
        lastUpdate := now;
      }
    }
  }
}
