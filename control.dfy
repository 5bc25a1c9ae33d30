/** The menu/playing mode machine, the key bindings and the tick gate of the main loop,
    over the board value of Rules. */
module Control {
  import opened Grid
  import opened Rules

  /** A 32-bit unsigned millisecond count, as the host clock returns it. */
  type Ticks = n: int | 0 <= n < 0x1_0000_0000

  /** Minimum time between two ticks of the game. */
  const TickInterval: int := 140

  /** `now - last` in unsigned 32-bit arithmetic, which wraps around below zero. */
  function Elapsed(now: Ticks, last: Ticks): (d: Ticks)
    ensures (last + d) % 0x1_0000_0000 == now
    ensures last <= now ==> d == now - last
    ensures now < last ==> d == now + 0x1_0000_0000 - last
  {
    (now - last) % 0x1_0000_0000
  }

  datatype GameState = Menu | Playing

  datatype Key = ArrowUp | ArrowDown | ArrowLeft | ArrowRight | LetterR | Return | Escape | OtherKey

  datatype Event = QuitEvent | KeyPress(key: Key) | OtherEvent

  /** Board, mode, whether the main loop keeps going, and the time of the last tick. */
  datatype Session = Session(board: Board, state: GameState, running: bool, lastUpdate: Ticks)

  /** The session right after start-up: a reset board, the menu showing, the clock read once. */
  function StartSession(rx: nat, ry: nat, now: Ticks): (s: Session)
    ensures Invariant(s.board) && s.state == Menu && s.running && s.lastUpdate == now
  {
    Session(ResetBoard(rx, ry), Menu, true, now)
  }

  /** The heading an arrow key asks for. */
  function Steer(k: Key): Direction
    requires k in {ArrowUp, ArrowDown, ArrowLeft, ArrowRight}
  {
    match k
    case ArrowUp => Up
    case ArrowDown => Down
    case ArrowLeft => Left
    case ArrowRight => Right
  }

  /** One input event. `rx`, `ry` are the random values a restart would draw for the food. */
  function OnEvent(s: Session, e: Event, rx: nat, ry: nat): (r: Session)
    ensures r.lastUpdate == s.lastUpdate
    ensures r.running ==> s.running
    ensures r.board == ResetBoard(rx, ry) || r.board == s.board.(direction := r.board.direction)
    ensures s.state == Menu ==> r.board == s.board || r.board == ResetBoard(rx, ry)
    ensures r.board.direction != s.board.direction && r.board != ResetBoard(rx, ry) ==>
      r.board.direction != Opposite(s.board.direction)
  {
    var s1 := if e.QuitEvent? then s.(running := false) else s;
    if s1.state == Menu then
      if e.KeyPress? && e.key == Return then s1.(board := ResetBoard(rx, ry), state := Playing)
      else if e.KeyPress? && e.key == Escape then s1.(running := false)
      else s1
    else if e.KeyPress? then
      match e.key
      case ArrowUp => s1.(board := s1.board.(direction := Turn(s1.board.direction, Up)))
      case ArrowDown => s1.(board := s1.board.(direction := Turn(s1.board.direction, Down)))
      case ArrowLeft => s1.(board := s1.board.(direction := Turn(s1.board.direction, Left)))
      case ArrowRight => s1.(board := s1.board.(direction := Turn(s1.board.direction, Right)))
      case LetterR => if s1.board.gameOver then s1.(board := ResetBoard(rx, ry)) else s1
      case Escape => s1.(state := Menu)
      case _ => s1
    else s1
  }

  /** Whether a loop iteration at time `now` advances the game. */
  predicate TickDue(s: Session, now: Ticks)
  {
    s.state == Playing && Elapsed(now, s.lastUpdate) > TickInterval
  }

  /** The clock check at the end of a loop iteration. */
  function OnTick(s: Session, now: Ticks, rx: nat, ry: nat): (r: Session)
    requires s.board.snake != []
    ensures r.state == s.state && r.running == s.running
    ensures r.board.snake != []
    ensures r.lastUpdate == s.lastUpdate || r.lastUpdate == now
    ensures r.board == s.board || r.board == UpdateBoard(s.board, rx, ry)
  {
    if TickDue(s, now) then s.(board := UpdateBoard(s.board, rx, ry), lastUpdate := now) else s
  }

  /** In the menu, Return restarts the board and starts play. */
  lemma ReturnInMenuStartsPlay(s: Session, rx: nat, ry: nat)
    requires s.state == Menu
    ensures OnEvent(s, KeyPress(Return), rx, ry) == s.(board := ResetBoard(rx, ry), state := Playing)
  {
  }

  /** In the menu, Escape stops the main loop and changes nothing else. */
  lemma EscapeInMenuStops(s: Session, rx: nat, ry: nat)
    requires s.state == Menu
    ensures OnEvent(s, KeyPress(Escape), rx, ry) == s.(running := false)
  {
  }

  /** While playing, Escape goes back to the menu and leaves the board as it is. */
  lemma EscapeInPlayingOpensMenu(s: Session, rx: nat, ry: nat)
    requires s.state == Playing
    ensures OnEvent(s, KeyPress(Escape), rx, ry) == s.(state := Menu)
  {
  }

  /** A quit request stops the main loop in either mode and changes nothing else. */
  lemma QuitStops(s: Session, rx: nat, ry: nat)
    ensures OnEvent(s, QuitEvent, rx, ry) == s.(running := false)
  {
  }

  /** While playing, `r` restarts the board if and only if the game is over. */
  lemma RestartOnlyWhenOver(s: Session, rx: nat, ry: nat)
    requires s.state == Playing
    ensures s.board.gameOver ==> OnEvent(s, KeyPress(LetterR), rx, ry) == s.(board := ResetBoard(rx, ry))
    ensures !s.board.gameOver ==> OnEvent(s, KeyPress(LetterR), rx, ry) == s
  {
  }

  /** While playing, an arrow key changes only the heading, and is refused exactly when it
      asks for the opposite of the stored heading. */
  lemma ArrowKeyTurns(s: Session, k: Key, rx: nat, ry: nat)
    requires s.state == Playing && k in {ArrowUp, ArrowDown, ArrowLeft, ArrowRight}
    ensures var r := OnEvent(s, KeyPress(k), rx, ry);
      r == s.(board := r.board) && r.board == s.board.(direction := r.board.direction) &&
      (r.board.direction == Steer(k) <==> Steer(k) != Opposite(s.board.direction)) &&
      (Steer(k) == Opposite(s.board.direction) ==> r.board.direction == s.board.direction)
  {
  }

  /** In the menu no event except Return touches the board. */
  lemma MenuFreezesBoard(s: Session, e: Event, rx: nat, ry: nat)
    requires s.state == Menu && e != KeyPress(Return)
    ensures OnEvent(s, e, rx, ry).board == s.board && OnEvent(s, e, rx, ry).state == Menu
  {
  }

  /** The game advances only while playing and only once more than 140 ms have passed
      (by unsigned difference); then the board takes exactly one tick and the time is recorded,
      so a second clock check at the same time does nothing. */
  lemma TickGate(s: Session, now: Ticks, rx: nat, ry: nat)
    requires s.board.snake != []
    ensures TickDue(s, now) ==> OnTick(s, now, rx, ry) == s.(board := UpdateBoard(s.board, rx, ry), lastUpdate := now)
    ensures !TickDue(s, now) ==> OnTick(s, now, rx, ry) == s
    ensures OnTick(OnTick(s, now, rx, ry), now, rx, ry) == OnTick(s, now, rx, ry)
  {
  }

  /** After the clock wraps past zero, a tick is still due once enough time has passed. */
  lemma TickDueAcrossWrap(s: Session, now: Ticks)
    requires s.state == Playing && now < s.lastUpdate && now + 0x1_0000_0000 - s.lastUpdate > TickInterval
    ensures TickDue(s, now)
  {
  }

  lemma EventPreservesInvariant(s: Session, e: Event, rx: nat, ry: nat)
    requires Invariant(s.board)
    ensures Invariant(OnEvent(s, e, rx, ry).board)
  {
  }

  lemma {:induction false} TickPreservesInvariant(s: Session, now: Ticks, rx: nat, ry: nat)
    requires Invariant(s.board)
    ensures Invariant(OnTick(s, now, rx, ry).board)
  {
    UpdatePreservesInvariant(s.board, rx, ry);
  }

  /** One input to the game: an event, or a clock reading at the end of a loop iteration,
      each with the random values a food placement would draw. */
  datatype Input = EventIn(event: Event, rx: nat, ry: nat) | ClockIn(now: Ticks, rx: nat, ry: nat)

  /** The session after a sequence of inputs, in order. Every board reachable this way keeps
      the invariant, so all boards the game shows do. */
  function Replay(s: Session, inputs: seq<Input>): (r: Session)
    requires Invariant(s.board)
    ensures Invariant(r.board)
    decreases |inputs|
  {
    if inputs == [] then s
    else
      var next := match inputs[0]
        case EventIn(e, rx, ry) => (EventPreservesInvariant(s, e, rx, ry); OnEvent(s, e, rx, ry))
        case ClockIn(now, rx, ry) => (TickPreservesInvariant(s, now, rx, ry); OnTick(s, now, rx, ry));
      Replay(next, inputs[1..])
  }

  /** Every session reached from start-up by any sequence of inputs has its snake on the
      grid, without repeated cells and connected, and its food on the grid. */
  lemma ReachableInvariant(rx: nat, ry: nat, now: Ticks, inputs: seq<Input>)
    ensures var b := Replay(StartSession(rx, ry, now), inputs).board;
      b.snake != [] && AllInGrid(b.snake) && Distinct(b.snake) && Connected(b.snake) && InGrid(b.food)
  {
  }
}
