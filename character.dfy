/** The character's command queue and replay engine. Commands entered by the
    player are queued; each call of `RealizarComandos` runs at most one of
    them once its cooldown has passed, and a move that lands on the revert
    marker is undone on the next run instead of the queue advancing.

    The pure part (`Play`, `Game`, `MovedToward`, `Tick` and the lemmas) is
    the specification that the class `Character` is proved against. The
    level manager that receives win and lose events is replaced by an
    outcome log. */
module Engine {
  import opened Wrappers
  import opened UserInterface
  import opened Board
  import opened Commands

  /** An event sent to the level manager. */
  datatype Outcome = Win | Lose

  /** The part of the character's state that a move reads or writes: the
      board, the game-over flag, the must-revert flag and the outcomes sent
      so far. */
  datatype Play = Play(board: BoardState, finished: bool, mustRevert: bool, log: seq<Outcome>)

  /** The whole state of the character: the play, the queue of pending
      commands (head first), the interval between commands in seconds and
      the earliest time the next command may run. */
  datatype Game = Game(play: Play, queue: seq<Command>, interval: real, nextTime: real)

  /** The unit displacement of a direction; rows grow downwards. */
  function Delta(d: Direccion): (v: Vec)
    ensures -1 <= v.x <= 1 && -1 <= v.y <= 1 && (v.x == 0 <==> v.y != 0)
    ensures v.y == -1 <==> d == Arriba
    ensures v.y == 1 <==> d == Abajo
    ensures v.x == 1 <==> d == Derecha
    ensures v.x == -1 <==> d == Izquierda
  {
    match d
    case Arriba => Vec(0, -1)
    case Abajo => Vec(0, 1)
    case Derecha => Vec(1, 0)
    case Izquierda => Vec(-1, 0)
  }

  /** Opposite directions have opposite displacements. */
  lemma DeltaOpposite(d: Direccion)
    ensures Delta(Opposite(d)) == Neg(Delta(d))
  {
  }

  /** `HandleWinOrLose`, subscribed to both events: it clears the game-over
      flag. */
  function AfterWinOrLose(p: Play): (q: Play)
    ensures !q.finished && q.(finished := p.finished) == p
  {
    p.(finished := false)
  }

  /** Sending an outcome: it is recorded and the handler runs. */
  function Trigger(p: Play, o: Outcome): (q: Play)
    ensures q.log == p.log + [o] && !q.finished
    ensures q.board == p.board && q.mustRevert == p.mustRevert
  {
    AfterWinOrLose(p.(log := p.log + [o]))
  }

  /** The effect of `MoverseHacia(d)`: one move by `Delta(d)`, then "lose"
      if the move left the board or the player is on a wall, then "win" if
      the player is on the goal, then the must-revert flag is set to whether
      the player is on the revert marker. */
  function MovedToward(p: Play, d: Direccion): (q: Play)
    requires Movable(p.board)
    ensures Movable(q.board) && q.board == Move(p.board, Delta(d)).board
    ensures q.mustRevert <==> q.board.under == Revert
    ensures var lost := !Move(p.board, Delta(d)).ok || q.board.under == Wall;
            q.log == p.log + (if lost then [Lose] else []) + (if q.board.under == Goal then [Win] else [])
    ensures q.finished == (if q.log == p.log then p.finished else false)
  {
    var r := Move(p.board, Delta(d));
    var p1 := p.(board := r.board);
    var p2 := if !r.ok || HitWall(r.board) then Trigger(p1, Lose) else p1;
    var p3 := if OnGoal(p2.board) then Trigger(p2, Win) else p2;
    p3.(mustRevert := OnRevert(p3.board))
  }

  /** `MovedToward` as the three steps `MoverseHacia` takes. */
  lemma MovedTowardSteps(p: Play, d: Direccion, p1: Play, p2: Play, p3: Play)
    requires Movable(p.board)
    requires p1 == p.(board := Move(p.board, Delta(d)).board)
    requires p2 == if !Move(p.board, Delta(d)).ok || HitWall(p1.board) then Trigger(p1, Lose) else p1
    requires p3 == if OnGoal(p2.board) then Trigger(p2, Win) else p2
    ensures MovedToward(p, d) == p3.(mustRevert := OnRevert(p3.board))
  {
  }

  /** A move never breaks the player invariant. */
  lemma MovedTowardPreservesPlayerInvariant(p: Play, d: Direccion)
    requires PlayerInvariant(p.board)
    ensures PlayerInvariant(MovedToward(p, d).board)
  {
    MovePreservesPlayerInvariant(p.board, Delta(d));
  }

  /** Lose and win are exclusive after a successful move: the tile under the
      player cannot be both a wall and the goal. Off the board both can be
      sent, when the player already stood on the goal. */
  lemma OutcomesOfAMove(p: Play, d: Direccion)
    requires Movable(p.board)
    ensures var r := Move(p.board, Delta(d));
            var sent := MovedToward(p, d).log[|p.log|..];
            (r.ok && Lose in sent ==> Win !in sent) &&
            (!r.ok ==> sent == if p.board.under == Goal then [Lose, Win] else [Lose])
  {
    var r := Move(p.board, Delta(d));
    var q := MovedToward(p, d);
    var lost := !r.ok || q.board.under == Wall;
    var won := q.board.under == Goal;
    assert q.log[|p.log|..] == (if lost then [Lose] else []) + (if won then [Win] else []);
    if !r.ok {
      assert q.board == p.board;
    }
  }

  /** What a command's `Execute` does to the play. */
  function Executed(p: Play, c: Command): (q: Play)
    requires Movable(p.board)
    ensures Movable(q.board)
  {
    MovedToward(p, ExecDir(c))
  }

  /** What a command's `Undo` does to the play. The up command declares no
      `Undo`; for it no move is made. */
  function Undone(p: Play, c: Command): (q: Play)
    requires Movable(p.board)
    ensures Movable(q.board)
    ensures c != UpCommand ==> q == MovedToward(p, Opposite(ExecDir(c)))
  {
    match UndoDir(c)
    case Some(d) => MovedToward(p, d)
    case None => p
  }

  /** For the commands that have an `Undo`, executing and then undoing a
      move that stays on the board restores position, remembered tile and
      grid. */
  lemma ExecuteThenUndoRestoresBoard(p: Play, c: Command)
    requires Movable(p.board) && c != UpCommand
    requires Move(p.board, Delta(ExecDir(c))).ok
    ensures Undone(Executed(p, c), c).board == p.board
  {
    DeltaOpposite(ExecDir(c));
    MoveRoundTrip(p.board, Delta(ExecDir(c)));
  }

  /** The guard of `RealizarComandos`. */
  predicate Ready(g: Game, now: real)
  {
    !g.play.finished && g.nextTime <= now && |g.queue| > 0
  }

  /** The effect of `RealizarComandos` at time `now`. When the must-revert
      flag is up, the undo object is removed first, which leaves the board
      `cleared`, and then the head command is undone and dropped. Otherwise
      the head is executed and dropped unless it raised the flag. The next
      command may run half an interval later when the flag is up, a whole
      interval later otherwise. */
  function Tick(g: Game, now: real, cleared: BoardState): (r: Game)
    requires Movable(g.play.board) && Movable(cleared)
    ensures Movable(r.play.board) && r.interval == g.interval
    ensures !Ready(g, now) ==> r == g
    ensures Ready(g, now) && g.play.mustRevert ==>
              r.play == Undone(g.play.(board := cleared), g.queue[0]).(mustRevert := false) &&
              r.queue == g.queue[1..]
    ensures Ready(g, now) && !g.play.mustRevert ==>
              r.play == Executed(g.play, g.queue[0]) &&
              r.queue == if r.play.mustRevert then g.queue else g.queue[1..]
    ensures Ready(g, now) ==>
              r.nextTime == now + if r.play.mustRevert then g.interval / 2.0 else g.interval
    ensures r.queue == g.queue || (|g.queue| > 0 && r.queue == g.queue[1..])
    ensures !g.play.finished ==> !r.play.finished
  {
    if !Ready(g, now) then g
    else
      var head := g.queue[0];
      var g1 :=
        if g.play.mustRevert then
          var u := Undone(g.play.(board := cleared), head);
          g.(play := u.(mustRevert := false), queue := g.queue[1..])
        else
          var e := Executed(g.play, head);
          g.(play := e, queue := if !e.mustRevert then g.queue[1..] else g.queue);
      g1.(nextTime := if g1.play.mustRevert then now + g.interval / 2.0 else now + g.interval)
  }

  /** The short delay is only ever followed by an undo: a run that leaves the
      flag up came from the execute branch and kept the head, so the next run
      undoes that same command, drops it, clears the flag and waits a whole
      interval. */
  lemma ShortDelayPrecedesUndo(g: Game, t1: real, c1: BoardState, t2: real, c2: BoardState)
    requires Movable(g.play.board) && Movable(c1) && Movable(c2)
    requires Ready(g, t1) && Tick(g, t1, c1).play.mustRevert
    requires Ready(Tick(g, t1, c1), t2)
    ensures !g.play.mustRevert && Tick(g, t1, c1).queue == g.queue
    ensures Tick(g, t1, c1).nextTime == t1 + g.interval / 2.0
    ensures var r := Tick(Tick(g, t1, c1), t2, c2);
            r.queue == g.queue[1..] && !r.play.mustRevert && r.nextTime == t2 + g.interval
  {
    var g1 := Tick(g, t1, c1);
    assert g1.queue[0] == g.queue[0];
  }

  /** Landing on the revert marker costs exactly one extra run: the command
      stays queued, the next run undoes it and drops it, and if the removal
      of the undo object leaves the board as it was, the board is back to
      where it was before the command ran. */
  lemma RevertUndoesExecute(g: Game, t1: real, c1: BoardState, t2: real)
    requires Movable(g.play.board) && Movable(c1)
    requires Ready(g, t1) && !g.play.mustRevert && g.queue[0] != UpCommand
    requires Move(g.play.board, Delta(ExecDir(g.queue[0]))).ok
    requires Tick(g, t1, c1).play.mustRevert
    requires t2 >= t1 + g.interval / 2.0
    ensures var g1 := Tick(g, t1, c1);
            var g2 := Tick(g1, t2, g1.play.board);
            g1.queue == g.queue && g2.queue == g.queue[1..] &&
            !g2.play.mustRevert && g2.play.board == g.play.board &&
            (g.play.board.under == Empty ==> g2.play.log == g.play.log)
  {
    var c := g.queue[0];
    var g1 := Tick(g, t1, c1);
    assert g1.play == Executed(g.play, c);
    assert Ready(g1, t2);
    ExecuteThenUndoRestoresBoard(g.play, c);
    var e := Executed(g.play, c);
    assert e.board.under == Revert;
    assert e.log == g.play.log;
    assert e.(board := e.board) == e;
  }

  /** A game whose board keeps the player invariant and that is not over. */
  ghost predicate Inv(g: Game)
  {
    PlayerInvariant(g.play.board) && !g.play.finished
  }

  /** `RealizarComandos` keeps the invariant, provided the removal of the
      undo object does. In particular nothing ever ends the game. */
  lemma TickPreservesInv(g: Game, now: real, cleared: BoardState)
    requires Inv(g) && PlayerInvariant(cleared)
    ensures Inv(Tick(g, now, cleared))
  {
    if Ready(g, now) {
      var head := g.queue[0];
      if g.play.mustRevert {
        match UndoDir(head)
        case Some(d) => MovedTowardPreservesPlayerInvariant(g.play.(board := cleared), d);
        case None =>
      } else {
        MovedTowardPreservesPlayerInvariant(g.play, ExecDir(head));
      }
    }
  }

  /** One call's input: the time and the board the removal of the undo
      object leaves, should it run. */
  datatype Call = Call(now: real, cleared: BoardState)

  ghost predicate MovableCalls(calls: seq<Call>)
  {
    forall i :: 0 <= i < |calls| ==> Movable(calls[i].cleared)
  }

  /** Calling `RealizarComandos` once for each element of `calls`, in order. */
  function RunCalls(g: Game, calls: seq<Call>): (r: Game)
    requires Movable(g.play.board) && MovableCalls(calls)
    ensures Movable(r.play.board)
    decreases |calls|
  {
    if calls == [] then g
    else RunCalls(Tick(g, calls[0].now, calls[0].cleared), calls[1..])
  }

  /** Executing commands one after the other, as the reference for FIFO
      order. */
  function Replay(p: Play, cmds: seq<Command>): (q: Play)
    requires Movable(p.board)
    ensures Movable(q.board)
    decreases |cmds|
  {
    if cmds == [] then p else Replay(Executed(p, cmds[0]), cmds[1..])
  }

  /** Calls that come at least `interval` apart, the first one no earlier
      than `start`. */
  predicate Spaced(start: real, interval: real, calls: seq<Call>)
    decreases |calls|
  {
    calls == [] ||
    (calls[0].now >= start && Spaced(calls[0].now + interval, interval, calls[1..]))
  }

  /** No command of `cmds`, executed in order from `p`, lands on the revert
      marker. */
  predicate NeverReverts(p: Play, cmds: seq<Command>)
    requires Movable(p.board)
    decreases |cmds|
  {
    cmds == [] ||
    (!Executed(p, cmds[0]).mustRevert && NeverReverts(Executed(p, cmds[0]), cmds[1..]))
  }

  /** Queued commands with N calls spaced by the interval are executed
      exactly once each, in queue order, when none of them lands on the
      revert marker; the queue is then empty. */
  lemma {:induction false} CallsExecuteInOrder(g: Game, calls: seq<Call>)
    requires Movable(g.play.board) && MovableCalls(calls)
    requires !g.play.finished && !g.play.mustRevert
    requires |calls| == |g.queue| && Spaced(g.nextTime, g.interval, calls)
    requires NeverReverts(g.play, g.queue)
    ensures RunCalls(g, calls).queue == []
    ensures RunCalls(g, calls).play == Replay(g.play, g.queue)
    decreases |calls|
  {
    if calls != [] {
      var q := g.queue;
      var e := Executed(g.play, q[0]);
      var g1 := Tick(g, calls[0].now, calls[0].cleared);
      assert g1 == Game(e, q[1..], g.interval, calls[0].now + g.interval);
      CallsExecuteInOrder(g1, calls[1..]);
    }
  }

  /** The state after setup: the player on bare floor at (x=1, y=2), no
      command queued, five seconds between commands. */
  function Initial(): (g: Game)
    ensures Inv(g) && g.play.board.pos == Vec(1, 2)
  {
    LayoutStart();
    Game(Play(BoardState(Layout(), Vec(1, 2), Empty), false, false, []), [], 5.0, 0.0)
  }

  /** From the starting state, whatever calls come, the player invariant
      holds and the game-over flag stays down, provided every removal of the
      undo object keeps the invariant. */
  lemma {:induction false} NeverFinished(g: Game, calls: seq<Call>)
    requires Inv(g) && MovableCalls(calls)
    requires forall i :: 0 <= i < |calls| ==> PlayerInvariant(calls[i].cleared)
    ensures Inv(RunCalls(g, calls))
    decreases |calls|
  {
    if calls != [] {
      TickPreservesInv(g, calls[0].now, calls[0].cleared);
      NeverFinished(Tick(g, calls[0].now, calls[0].cleared), calls[1..]);
    }
  }

  /** Queue [Up] on the starting board: the first run moves onto the revert
      marker at (x=1, y=1), keeps the command and allows the next run 2.5
      seconds later; that run drops the command and clears the flag. */
  lemma ScenarioUpOntoRevert(cl: BoardState)
    requires Movable(cl)
    ensures var g0 := Initial().(queue := [UpCommand]);
            var g1 := Tick(g0, 5.0, cl);
            var g2 := Tick(g1, 7.5, cl);
            g1.play.board.pos == Vec(1, 1) && g1.play.mustRevert &&
            g1.queue == [UpCommand] && g1.nextTime == 7.5 && g1.play.log == [] &&
            g2.queue == [] && !g2.play.mustRevert && g2.nextTime == 12.5
  {
    var g0 := Initial().(queue := [UpCommand]);
    assert Move(g0.play.board, Vec(0, -1)).board.under == Revert;
  }

  /** Left from the start reaches the wall at (x=0, y=2), next to the goal. */
  lemma LeftFromStart()
    ensures var m := Move(Initial().play.board, Vec(-1, 0));
            m.ok && Movable(m.board) && m.board.pos == Vec(0, 2) && m.board.under == Wall &&
            Get(m.board.grid, Vec(0, 1)) == Goal
  {
  }

  /** Up from (x=0, y=2) reaches the cell above it. */
  lemma UpFromCorner(b: BoardState)
    requires Movable(b) && b.pos == Vec(0, 2) && Get(b.grid, Vec(0, 1)) == Goal
    ensures var m := Move(b, Vec(0, -1));
            m.ok && m.board.pos == Vec(0, 1) && m.board.under == Goal
  {
  }

  /** Queue [Left, Up] on the starting board: Left lands on the wall at
      (x=0, y=2) and sends Lose, yet the game goes on, and Up then reaches
      the goal at (x=0, y=1) and sends Win. */
  lemma ScenarioLoseDoesNotStop(cl: BoardState)
    requires Movable(cl)
    ensures var g0 := Initial().(queue := [LeftCommand, UpCommand]);
            var g1 := Tick(g0, 5.0, cl);
            var g2 := Tick(g1, 10.0, cl);
            g1.play.board.pos == Vec(0, 2) && g1.play.log == [Lose] && g1.queue == [UpCommand] &&
            !g1.play.finished &&
            g2.play.board.pos == Vec(0, 1) && g2.play.log == [Lose, Win] && g2.queue == []
  {
    var g0 := Initial().(queue := [LeftCommand, UpCommand]);
    LeftFromStart();
    var g1 := Tick(g0, 5.0, cl);
    assert g1.play == MovedToward(g0.play, Izquierda);
    UpFromCorner(g1.play.board);
    var g2 := Tick(g1, 10.0, cl);
    assert g2.play == MovedToward(g1.play, Arriba);
  }

  /** `Awake` and `Start` of the board, then `Awake` of the character it
      creates: the result is the starting state. */
  method SetUp() returns (character: Character)
    ensures fresh(character) && fresh(character.board) && fresh(character.board.cells)
    ensures character.Valid() && character.State() == Initial()
  {
    var board := new BoardManager();
    board.Start();
    character := new Character(board);
  }

  /** The character: its board, the interval between commands, the queue of
      commands to run, the time the next one may run, the game-over and
      must-revert flags, and the outcomes sent so far. */
  class Character {
    var board: BoardManager
    var interval: real
    var queue: seq<Command>
    var nextTime: real
    var finished: bool
    var mustRevert: bool
    ghost var log: seq<Outcome>

    ghost predicate Valid()
      reads this, board, board.cells
    {
      board.Valid() && Movable(board.State())
    }

    ghost function State(): Game
      reads this, board
    {
      Game(Play(board.State(), finished, mustRevert, log), queue, interval, nextTime)
    }

    /** `Awake`, with the board that `AgregarObjetosAlTablero` hands over. */
    constructor (b: BoardManager)
      requires b.Valid() && Movable(b.State())
      ensures board == b && Valid()
      ensures State() == Game(Play(b.State(), false, false, []), [], 5.0, 0.0)
    {
      board := b;
      interval := 5.0;
      queue := [];
      nextTime := 0.0;
      mustRevert := false;
      finished := false;
      log := [];
    }

    method MoverseHacia(direction: Direccion)
      requires Valid()
      modifies this, board, board.cells
      ensures Valid() && board == old(board) && board.cells == old(board.cells)
      ensures State() == old(State()).(play := MovedToward(old(State()).play, direction))
    {
      var deltaPos := Delta(direction);
      ghost var p0 := State().play;
      var sePudoMover := board.MoverPersonaje(deltaPos);
      ghost var p1 := p0.(board := board.State());
      assert board.Valid() && Movable(p1.board);
      assert State().play == p1;
      var haChocado := board.JugadorChocoPared();
      if !sePudoMover || haChocado {
        TriggerLose();
      }
      ghost var p2 := if !sePudoMover || haChocado then Trigger(p1, Lose) else p1;
      assert State().play == p2;
      var haGanado := board.JugadorenMeta();
      if haGanado {
        TriggerWin();
      }
      ghost var p3 := if haGanado then Trigger(p2, Win) else p2;
      assert State().play == p3 && board.State() == p1.board;
      MovedTowardSteps(p0, direction, p1, p2, p3);
      mustRevert := board.JugadorEnRevertir();
      assert board.State() == p1.board && board.Valid();
      assert State().play == p3.(mustRevert := OnRevert(p3.board));
    }

    /** Appends a command to the tail of the queue. */
    method RegistrarComandos(mvCommand: Command)
      modifies this
      ensures board == old(board)
      ensures State() == old(State()).(queue := old(queue) + [mvCommand])
    {
      queue := queue + [mvCommand];
    }

    /** Runs at most one command at time `now`; `cleared` is the board the
        removal of the undo object leaves. */
    method RealizarComandos(now: real) returns (ghost cleared: BoardState)
      requires Valid()
      modifies this, board, board.cells
      ensures Valid() && board == old(board) && board.cells == old(board.cells)
      ensures Movable(cleared)
      ensures State() == Tick(old(State()), now, cleared)
    {
      cleared := board.State();
      if !finished && nextTime <= now && |queue| > 0 {
        var comandoAEjecutar := queue[0];
        if mustRevert {
          board.RemoverObjDeshacer();
          cleared := board.State();
          Undo(comandoAEjecutar, this);
          mustRevert := false;
          queue := queue[1..];
        } else {
          Execute(comandoAEjecutar, this);
          if !mustRevert {
            queue := queue[1..];
          }
        }
        if mustRevert {
          nextTime := now + interval / 2.0;
        } else {
          nextTime := now + interval;
        }
      }
    }

    /** Sends "lose" to the level manager. */
    method TriggerLose()
      modifies this
      ensures board == old(board) && (old(Valid()) ==> Valid())
      ensures State() == old(State()).(play := Trigger(old(State()).play, Lose))
    {
      log := log + [Lose];
      HandleWinOrLose();
    }

    /** Sends "win" to the level manager. */
    method TriggerWin()
      modifies this
      ensures board == old(board) && (old(Valid()) ==> Valid())
      ensures State() == old(State()).(play := Trigger(old(State()).play, Win))
    {
      log := log + [Win];
      HandleWinOrLose();
    }

    method HandleWinOrLose()
      modifies this
      ensures board == old(board) && (old(Valid()) ==> Valid())
      ensures State() == old(State()).(play := AfterWinOrLose(old(State()).play))
    {
      finished := false;
    }
  }

  /** `Execute` of a command: one `MoverseHacia` in its direction, on the
      character it is given and nothing else. */
  method Execute(c: Command, character: Character)
    requires character.Valid()
    modifies character, character.board, character.board.cells
    ensures character.Valid() && character.board == old(character.board)
    ensures character.board.cells == old(character.board.cells)
    ensures character.State() ==
              old(character.State()).(play := Executed(old(character.State()).play, c))
  {
    character.MoverseHacia(ExecDir(c));
  }

  /** `Undo` of a command: one `MoverseHacia` in the opposite direction; the
      up command declares none. */
  method Undo(c: Command, character: Character)
    requires character.Valid()
    modifies character, character.board, character.board.cells
    ensures character.Valid() && character.board == old(character.board)
    ensures character.board.cells == old(character.board.cells)
    ensures character.State() ==
              old(character.State()).(play := Undone(old(character.State()).play, c))
  {
    match UndoDir(c) {
      case Some(d) => character.MoverseHacia(d);
      case None =>
    }
  }
}
