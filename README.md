# Snake game state, modelled in Dafny

A model of the game logic of a small Snake game (`main.cpp`) with every graphics, image and
audio call stripped away. The snake lives on a grid of 46 × 23 cells (1400 / 30 and 700 / 30,
integer division). It moves one cell per tick in its stored heading. It dies when its head
leaves the grid or lands on any of its own segments, the tail included. It grows by one
segment when the head lands on the food, and the food is then placed again from two random
values. A menu/playing mode machine decides which keys do what. A tick fires only while
playing, and only once more than 140 ms have passed since the last one.

Files and modules:

- `grid.dfy`, module `Grid`: grid constants, cells (`Point`), headings, the neighbour cell of a
  heading, and the point comparison.
- `rules.dfy`, module `Rules`: the game state as a value (`Board`) and the rules as functions.
  `UpdateBoard` is one tick, `ResetBoard` a restart, `FoodAt` food placement and `Turn` the
  direction-change rule. The lemmas state the three outcomes of a tick and the board
  invariant: the body is nonempty, on the grid, free of repeated cells and connected, and the
  food is on the grid.
- `control.dfy`, module `Control`: the menu/playing mode, key events, the unsigned 32-bit tick
  clock and the tick gate, as functions over a `Session` value. `Replay` shows that every
  session reached from start-up keeps the board invariant.
- `snake_game.dfy`, module `Game`: the class `SnakeGame`. Its fields are updated in place by
  `Reset`, `SpawnFood`, `Update`, `HandleEvent` and `Tick`, and each method is proved to
  produce exactly the state the matching function of `Rules`/`Control` gives.
  `Find` is the linear search the tick uses to look for the new head in the body.

Inputs from the host become parameters. The two values `rand()` would return for a food
placement are `rx, ry: nat`, and the value `SDL_GetTicks()` would return is `now: Ticks`, a
32-bit unsigned number. The key event that `SDL_PollEvent` would deliver is an `Event` value.

Behaviour worth knowing, proved as stated:

- Food may be placed on a cell the snake covers (`Rules.FoodCanLandAnywhere`).
- Moving into the cell the tail is about to leave still ends the game, because the head is
  looked up in the whole body before the tail is dropped.
- The direction rule compares a request with the stored heading, not with the heading of the
  last move. One accepted turn per tick never sends the head into the segment behind it
  (`Rules.SingleTurnAvoidsNeck`). Two accepted turns between ticks can reverse the snake, and
  the next tick then ends the game (`Rules.DoubleTurnHitsNeck`).

## Model

| member | source | states |
|---|---|---|
| `Grid.SamePoint` | main.cpp:17-19 | two points compare equal exactly when they are the same cell |
| `Grid.NextCell` | main.cpp:147-152 | the head moves to a cell sharing a side with the old head |
| `Grid.NextCellInverse` | main.cpp:147-152 | moving one step and then one step the opposite way returns to the start cell |
| `Grid.NextCellInjective` | main.cpp:147-152 | two different headings lead to two different cells |
| `Grid.Opposite` | main.cpp:119-122 | no heading is its own opposite |
| `Grid.OppositeInvolutive` | main.cpp:119-122 | the opposite of the opposite is the heading itself |
| `Rules.FoodAt` | main.cpp:93-96 | food placed from any non-negative random values lies on the grid |
| `Rules.FoodCanLandAnywhere` | main.cpp:93-96 | every grid cell, occupied or not, can receive the food |
| `Rules.ResetBoard` | main.cpp:71-76 | after a restart the board satisfies the invariant, the snake has one segment and the game is not over |
| `Rules.Turn` | main.cpp:119-122 | a requested heading is ignored when it is the opposite of the stored one and replaces it otherwise, so the result is never the opposite of the stored heading |
| `Rules.TurnIgnoredIff` | main.cpp:119-122 | the heading stays the same exactly when the request is the opposite or the same heading |
| `Rules.UpdateBoard` | main.cpp:141-172 | one tick: a finished board is returned unchanged; the length changes by 0 or +1; the heading is kept; a tick that ends the game keeps snake and food; otherwise the new head is the neighbour cell in the stored heading and the rest of the body is a prefix of the old body |
| `Rules.UpdateWhenOver` | main.cpp:142-144 | once the game is over a tick changes nothing, so repeated ticks are idempotent |
| `Rules.CrashIsAbsorbing` | main.cpp:141-161 | after a tick that ends the game, every later tick with any food draw changes nothing |
| `Rules.UpdateCrash` | main.cpp:154-161 | a head off the grid or on any body cell, the tail included, sets game over and leaves snake, food and heading unchanged |
| `Rules.UpdateGrow` | main.cpp:164-168 | eating gives the body `[head] + old`, one segment longer, with new food on the grid |
| `Rules.UpdateMove` | main.cpp:164-171 | a plain move gives `[head] + old` without its last cell: same length, same food |
| `Rules.ExactlyOneOutcome` | main.cpp:141-172 | on a live board exactly one of game over with the body unchanged, growth, or a move happens |
| `Rules.UpdatePreservesInvariant` | main.cpp:154-171 | a tick keeps the body nonempty, on the grid, without repeated cells and connected, and the food on the grid |
| `Rules.SingleTurnAvoidsNeck` | main.cpp:119-122 | with the stored heading equal to the last move, one turn never sends the head into the second segment |
| `Rules.DoubleTurnHitsNeck` | main.cpp:119-122 | heading right, the turns up then left are both accepted, and the next tick ends the game on the neck |
| `Rules.LeftWallScenario` | main.cpp:154-161 | a head at column 0 moving left ends the game with the snake unchanged |
| `Rules.GrowthScenario` | main.cpp:164-168 | the start snake moving right onto food at (11,10) becomes `[(11,10),(10,10)]` and the food is placed again |
| `Rules.MoveScenario` | main.cpp:169-171 | `[(5,5),(4,5)]` moving right becomes `[(6,5),(5,5)]` |
| `Control.Elapsed` | main.cpp:130-131 | the unsigned difference added back to the last tick time gives `now` modulo 2^32; it is the plain difference without wrap and `now + 2^32 - last` with wrap |
| `Control.StartSession` | main.cpp:98-100 | at start-up the board satisfies the invariant, the menu shows, the loop runs and the last tick time is the first clock reading |
| `Control.OnEvent` | main.cpp:104-128 | an event never touches the last tick time and never restarts a stopped loop; the board is either restarted or changed in its heading only; in the menu only a restart changes it; a heading change never points opposite to the old heading |
| `Control.OnTick` | main.cpp:130-134 | a clock check keeps the mode and the loop flag and a nonempty body; it either leaves the board or applies exactly one tick, and records either the old time or `now` |
| `Control.ReturnInMenuStartsPlay` | main.cpp:107-111 | Return in the menu restarts the board and switches to playing |
| `Control.EscapeInMenuStops` | main.cpp:112-114 | Escape in the menu stops the main loop and changes nothing else |
| `Control.EscapeInPlayingOpensMenu` | main.cpp:124 | Escape while playing switches to the menu and keeps the board |
| `Control.QuitStops` | main.cpp:105 | a quit request stops the main loop in either mode and changes nothing else |
| `Control.RestartOnlyWhenOver` | main.cpp:123 | `r` while playing restarts the board when the game is over and changes nothing otherwise |
| `Control.ArrowKeyTurns` | main.cpp:118-122 | an arrow key while playing changes only the heading, and takes effect exactly when it is not the opposite of the stored heading |
| `Control.MenuFreezesBoard` | main.cpp:107-115 | in the menu no event except Return changes the board or leaves the menu |
| `Control.TickGate` | main.cpp:130-134 | the board takes one tick and the time is recorded only while playing with more than 140 ms elapsed; otherwise nothing changes; a second clock check at the same time does nothing |
| `Control.TickDueAcrossWrap` | main.cpp:130-131 | after the clock wraps past zero a tick is still due once more than 140 ms have passed |
| `Control.EventPreservesInvariant` | main.cpp:104-128 | no input event breaks the board invariant |
| `Control.TickPreservesInvariant` | main.cpp:130-134 | no clock check breaks the board invariant |
| `Control.Replay` | main.cpp:102-138 | any sequence of events and clock checks from a board satisfying the invariant ends on a board satisfying it |
| `Control.ReachableInvariant` | main.cpp:98-138 | every session reached from start-up has its snake on the grid, without repeated cells, connected, and its food on the grid |
| `Game.Find` | main.cpp:157 | returns the index of the first body cell equal to the head, or the body length exactly when the head is not in the body |
| `Game.SnakeGame.constructor` | main.cpp:24-100 | a new game is the start-up session (reset board and menu from the constructor, loop flag and first clock reading from the start of the main loop) and satisfies the invariant |
| `Game.SnakeGame.SpawnFood` | main.cpp:93-96 | the food becomes the placement of the two random values and lies on the grid |
| `Game.SnakeGame.Reset` | main.cpp:71-80 | the board becomes the restart board; mode, loop flag and last tick time are untouched |
| `Game.SnakeGame.Update` | main.cpp:141-172 | the fields become the board of one tick, and the invariant is kept |
| `Game.SnakeGame.HandleEvent` | main.cpp:104-128 | the fields become the session after the event, and the invariant is kept |
| `Game.SnakeGame.Tick` | main.cpp:130-137 | the fields become the session after the clock check, and the invariant is kept |

## Left out

- Window, renderer, texture and sound set-up, the exit on a missing asset, and the
  destructor's release of these resources: these are calls into the host graphics and audio
  libraries.
- Music and sound effects in the restart and the tick: they do not affect the game state.
- Drawing the board and the menu screen: presentation only, with no effect on the state.
- Event polling, the clock reading and the outer `while (running)` loop. Each event and each
  clock reading is a parameter instead. `running` and `lastUpdate`, locals of the loop, are
  fields of the class so that the event and clock methods can update them.
- Seeding of the random generator. `rand()` is any non-negative number given as a parameter.
  Its upper bound `RAND_MAX` is not modelled, because only the remainders modulo 46 and 23 matter.
- Coordinates are unbounded integers. The source's `int` cannot overflow here, because by the
  invariant every coordinate lies between -1 and 46.
- Game.SnakeGame.Update: requires a nonempty body, because the source reads the front of the
  deque without checking. The body is never empty once the constructor has run.
- Control.Replay: takes any sequence of events and clock checks. It does not stop after a quit,
  so it covers more traces than the real loop.
