# laberintoSimple: the 3x3 maze engine in Dafny

The game moves a character across a fixed 3x3 board. The player types
direction commands, which are queued. Each call of `RealizarComandos` runs
at most one queued command, once a cooldown has passed. Standing on a wall
or leaving the board sends "lose", and standing on the goal sends "win".
Landing on the revert marker makes the next run undo the command instead of
moving on to the next one.

The model has four modules, one per part of the source:

- `Board` (`Assets/scripts/BoardManager.cs`). The tile kinds, the grid
  indexed `[y][x]`, the player position and the tile under the player. `Move`
  is the pure specification of the move executor. The class `BoardManager`
  keeps the source's `array2` of tiles and has `MoverPersonaje`, the setup
  loop and the board queries. Each of them is proved against the pure
  definitions.
- `Commands` (`MovementCommand.cs` and the four command files). A command is
  a data value with no fields. `ExecDir` and `UndoDir` give the one direction
  each of its methods moves in.
- `Engine` (`Assets/scripts/Character.cs`). `MovedToward` specifies
  `MoverseHacia` and `Tick` specifies `RealizarComandos`. The class
  `Character` has the queue, the cooldown time, the two flags and a ghost log
  of the outcomes sent. The module-level methods `Execute` and `Undo` are the
  commands' methods. The lemmas cover the revert cycle, FIFO replay, the
  board invariant and two concrete scenarios.
- `UserInterface` (`Assets/scripts/UIManager.cs`). The `Direccion` enum, the
  arrow rotation and the panel slot of the k-th arrow. The class `UIManager`
  holds the list of arrows that `CrearFlecha` appends to.
- `Wrappers` holds a small `Option` type.

Some of the code's behaviour is easy to misread; the model follows the code:

- After an execute raises the must-revert flag, the next run may come half
  an interval later. The undo run then waits a whole interval, because it
  clears the flag before the delay is chosen (`Character.cs:139`, `162-169`).
- An undo goes through `MoverseHacia`, so it also checks for lose, win and
  the revert marker.
- `HandleWinOrLose` sets the game-over flag to false (`Character.cs:179`), so
  nothing ever ends the game. Runs go on after "lose" or "win" while commands
  are queued. `ScenarioLoseDoesNotStop` and `NeverFinished` state this.
- `Character.cs:94` calls `JugadorEnMeta`, but `BoardManager.cs` only defines
  `JugadorenMeta`. The model uses `JugadorenMeta`.

## Model

| member | source | states |
|---|---|---|
| `Board.PosicionAFueraDelTablero` | Assets/scripts/BoardManager.cs:262-267 | false exactly when 0 <= y < 3 and 0 <= x < 3 |
| `Board.Layout` | Assets/scripts/BoardManager.cs:109-113 | the starting layout is a well-formed 3x3 grid |
| `Board.Move` | Assets/scripts/BoardManager.cs:214-239 | defined only when the player's cell holds an object, since line 230 dereferences it. ok iff the target is on the board. Off the board, nothing changes. Otherwise the position becomes the target, the remembered tile becomes the target's old content, the cell left gets the old remembered tile, the target gets the player object, and every other cell is unchanged. After a non-zero move the player's cell again holds an object |
| `Board.MovePreservesPlayerInvariant` | Assets/scripts/BoardManager.cs:231-233 | a move by a non-zero vector keeps the player in exactly one cell, at the position, and never remembered under itself |
| `Board.ZeroMoveBreaksPlayerInvariant` | Assets/scripts/BoardManager.cs:225-236 | a zero vector is accepted and leaves the player object remembered under itself |
| `Board.MoveRoundTrip` | Assets/scripts/BoardManager.cs:225-236 | after a successful move by d that leaves an object in the player's cell, a move by -d succeeds and restores grid, position and remembered tile |
| `Board.EsClonDelPrefab` | Assets/scripts/BoardManager.cs:288-296 | an empty (null) cell is no prefab's instance; otherwise an instance belongs exactly to its own kind |
| `Board.OnGoal` | Assets/scripts/BoardManager.cs:303-306 | true iff the remembered tile is the goal |
| `Board.HitWall` | Assets/scripts/BoardManager.cs:315-318 | true iff the remembered tile is a wall |
| `Board.OnRevert` | Assets/scripts/Character.cs:102 | true iff the remembered tile is the revert marker |
| `Board.FloorIsNeutral` | Assets/scripts/BoardManager.cs:288-318 | on bare floor the player is not on the goal, a wall or the revert marker |
| `Board.HayParedIgnoresLayout` | Assets/scripts/BoardManager.cs:275-278 | the wall query answers from the column alone: true at (x=0, y=1), which is the goal of the starting layout, and false at (x=2, y=0), which is a wall |
| `Board.LastPlayer` | Assets/scripts/BoardManager.cs:153-180 | the scan's result at a point of the nested loops: a found cell is on the board, holds the player and comes before that point in row order |
| `Board.LastPlayerIsLast` | Assets/scripts/BoardManager.cs:153-180 | every player cell the scan has passed is the one found or comes before it in row order. So the scan finds the last one, and finds none only when there is none |
| `Board.LastPlayerUnique` | Assets/scripts/BoardManager.cs:153-180 | with exactly one player cell, the row-by-row scan finds it once it has passed it |
| `Board.LayoutStart` | Assets/scripts/BoardManager.cs:109-113 | the starting layout has a player only at (x=1, y=2), and the scan finds it |
| `Board.BoardManager.constructor` | Assets/scripts/BoardManager.cs:98-114 | the array holds the starting layout; the position is (0,0) and the remembered tile is empty |
| `Board.BoardManager.Start` | Assets/scripts/BoardManager.cs:119-123 | after setup the player is at (x=1, y=2) on bare floor, the grid is the layout and the player invariant holds |
| `Board.BoardManager.AgregarObjetosAlTablero` | Assets/scripts/BoardManager.cs:151-203 | the cells are unchanged; the position is the last player cell in row order with an empty remembered tile, or unchanged if no cell holds the player |
| `Board.BoardManager.MoverPersonaje` | Assets/scripts/BoardManager.cs:214-239 | called with an object in the player's cell, the returned flag, the array contents, position and remembered tile are exactly `Move` of the old state |
| `Board.BoardManager.RemoverObjDeshacer` | Assets/scripts/Character.cs:137 | the board stays well-formed and the player's cell keeps an object (nothing else is promised) |
| `Board.BoardManager.JugadorenMeta` | Assets/scripts/BoardManager.cs:303-306 | true iff the player stands on the goal |
| `Board.BoardManager.JugadorChocoPared` | Assets/scripts/BoardManager.cs:315-318 | true iff the player stands on a wall |
| `Board.BoardManager.JugadorEnRevertir` | Assets/scripts/Character.cs:102 | true iff the player stands on the revert marker |
| `Commands.ExecDir` | Assets/scripts/LeftCommand.cs:16-22 | up, down, left and right commands execute up, down, left and right, and no other direction |
| `Commands.UndoDir` | Assets/scripts/MovementCommand.cs:13-21 | only the up command has no Undo; every other Undo moves opposite to its Execute |
| `Commands.UpExecutesDownsUndo` | Assets/scripts/UpCommand.cs:20 | the up command's Execute direction is the down command's Undo direction |
| `Commands.ExecDirInjective` | Assets/scripts/MovementCommand.cs:5-22 | distinct commands execute in distinct directions |
| `Engine.Delta` | Assets/scripts/Character.cs:65-82 | a unit step: up is y-1, down y+1, right x+1, left x-1 |
| `Engine.DeltaOpposite` | Assets/scripts/Character.cs:65-82 | opposite directions give opposite vectors |
| `Engine.AfterWinOrLose` | Assets/scripts/Character.cs:177-180 | the handler lowers the game-over flag and changes nothing else |
| `Engine.Trigger` | Assets/scripts/Character.cs:91 | sending an outcome appends it to the log and runs the handler |
| `Engine.MovedToward` | Assets/scripts/Character.cs:63-103 | the board is `Move` by the direction's vector. "Lose" is sent iff the move failed or the player is on a wall, and "win" comes after it iff the player is on the goal. The must-revert flag equals "on the revert marker", whatever it was before |
| `Engine.MovedTowardPreservesPlayerInvariant` | Assets/scripts/Character.cs:65-86 | a move in a direction keeps the player invariant |
| `Engine.OutcomesOfAMove` | Assets/scripts/Character.cs:86-98 | a successful move never sends both outcomes. A failed move sends "lose", followed by "win" when the player already stood on the goal |
| `Engine.Executed` | Assets/scripts/LeftCommand.cs:16-22 | a command's Execute keeps the board movable: the player's cell still holds an object |
| `Engine.Undone` | Assets/scripts/LeftCommand.cs:30-37 | the Undo of a command other than up is a move opposite to its Execute |
| `Engine.ExecuteThenUndoRestoresBoard` | Assets/scripts/DownCommand.cs:16-37 | for down, left and right, Execute then Undo restores grid, position and remembered tile when the first move stays on the board |
| `Engine.Tick` | Assets/scripts/Character.cs:122-170 | no change unless the game is not over, the time has come and the queue is non-empty. In the revert branch: undo of the head, the flag cleared, the head dropped. Otherwise: execute of the head, dropped only if the flag stays down. The next time is now plus half the interval if the flag is up, else plus the whole interval. The queue is never reordered |
| `Engine.ShortDelayPrecedesUndo` | Assets/scripts/Character.cs:130-169 | the half-interval delay only follows an execute that kept its command. The next run undoes and drops that command and waits a whole interval |
| `Engine.RevertUndoesExecute` | Assets/scripts/Character.cs:130-157 | landing on the revert marker keeps the command queued. The next run drops it and, when the removal leaves the board alone, restores the board. From bare floor no outcome is sent |
| `Engine.TickPreservesInv` | Assets/scripts/Character.cs:122-170 | a run keeps the player invariant and the game-over flag down |
| `Engine.CallsExecuteInOrder` | Assets/scripts/Character.cs:122-170 | N queued commands, run by N calls spaced by the interval, execute once each, in FIFO order, when none lands on the revert marker. The queue ends empty |
| `Engine.NeverFinished` | Assets/scripts/Character.cs:54 | from any valid state not yet over, no sequence of calls ever raises the game-over flag |
| `Engine.Initial` | Assets/scripts/BoardManager.cs:180-187 | the starting state satisfies the invariant, with the player at (x=1, y=2) |
| `Engine.ScenarioUpOntoRevert` | Assets/scripts/Character.cs:130-169 | queue [Up] from the start: the first run lands on the marker at (1,1), keeps the command and sets the next time to 7.5. The second run drops the command and clears the flag |
| `Engine.ScenarioLoseDoesNotStop` | Assets/scripts/Character.cs:86-98 | queue [Left, Up] from the start: the log reads [Lose] after the first run and [Lose, Win] after the second |
| `Engine.SetUp` | Assets/scripts/Character.cs:45-55 | the board's setup plus the character's `Awake` give the starting state |
| `Engine.Character.constructor` | Assets/scripts/Character.cs:45-55 | empty queue, both flags down, next time 0, interval 5, no outcomes |
| `Engine.Character.MoverseHacia` | Assets/scripts/Character.cs:63-103 | the new state is `MovedToward` of the old one |
| `Engine.Character.RegistrarComandos` | Assets/scripts/Character.cs:110-113 | the command is appended to the tail; nothing else changes |
| `Engine.Character.RealizarComandos` | Assets/scripts/Character.cs:122-170 | the new state is `Tick` of the old one at `now` |
| `Engine.Character.TriggerLose` | Assets/scripts/Character.cs:91 | "lose" is appended to the log and the handler runs |
| `Engine.Character.TriggerWin` | Assets/scripts/Character.cs:97 | "win" is appended to the log and the handler runs |
| `Engine.Character.HandleWinOrLose` | Assets/scripts/Character.cs:177-180 | the game-over flag is false; nothing else changes |
| `Engine.Execute` | Assets/scripts/RightCommand.cs:16-22 | exactly one `MoverseHacia` in the command's direction, on the given character only |
| `Engine.Undo` | Assets/scripts/RightCommand.cs:30-37 | exactly one `MoverseHacia` opposite to Execute (none for up), on the given character only |
| `UserInterface.ArrowRotation` | Assets/scripts/UIManager.cs:130-149 | up 270, right 180, down 90, left 0 degrees, each value for exactly one direction |
| `UserInterface.ArrowPointsThatWay` | Assets/scripts/UIManager.cs:132-147 | turning the left-pointing arrow counter-clockwise by the chosen degrees makes it point in the requested direction |
| `UserInterface.ArrowRotationOpposite` | Assets/scripts/UIManager.cs:132-147 | opposite directions are half a turn apart, and no two directions share a rotation |
| `UserInterface.ArrowSlot` | Assets/scripts/UIManager.cs:173-176 | column in 0..6 and k == row * 7 + column |
| `UserInterface.ArrowSlotInjective` | Assets/scripts/UIManager.cs:173-176 | distinct arrow counts give distinct slots |
| `UserInterface.ArrowsNeverOverlap` | Assets/scripts/UIManager.cs:159-187 | in a list placed by index, no two arrows share a slot |
| `UserInterface.UIManager.constructor` | Assets/scripts/UIManager.cs:88 | the arrow list starts empty |
| `UserInterface.UIManager.AgregarFlechaUI` | Assets/scripts/UIManager.cs:130-149 | appends one arrow with the direction's rotation in the next slot |
| `UserInterface.UIManager.CrearFlecha` | Assets/scripts/UIManager.cs:156-188 | the list grows by one. Earlier arrows are kept, and the new arrow at index k = previous count gets slot (k % 7, k / 7) |

## Left out

- Rendering and engine glue are not modelled: `CentrarTablero`, `PosTableroALocalPos`, instantiating prefabs and floor tiles, parenting and z-heights. Only the tile grid they produce is kept.
- `Board.BoardManager.AgregarObjetosAlTablero` does not store the new instance in the cell. An instance has the same tile kind as its prefab, so the cell does not change.
- Prefab identity is compared by name in the source (`"(Clone)"`). The model compares tile kinds instead.
- `LevelManager.cs` is not part of this model: its fade uses floating-point interpolation over wall-clock time. `Singleton.cs` is not part of this model either: it is a locked, lazily created global.
- The level manager's `TriggerWin`, `TriggerLose`, `OnWin` and `OnLose` are not in the source shown. Sending an outcome is modelled as a log entry followed by the subscribed `HandleWinOrLose`.
- `JugadorEnRevertir` is not in the source shown. It is modelled as "the tile under the player is the revert marker".
- `Board.BoardManager.RemoverObjDeshacer`: not in the source shown. It only promises that the board stays well-formed and that the player's cell keeps its object, which the next move needs. `Tick` takes the board it leaves as a parameter, and `RealizarComandos` returns that board as a ghost value.
- `Engine.Undone`: `UpCommand.cs` declares no `Undo`, although the abstract base requires one. For the up command the model makes no move, and no lemma depends on that choice.
- Engine.Undo: for the up command it makes no `MoverseHacia` call, for the reason given for `Engine.Undone`.
- `Board.Move` and `Board.BoardManager.MoverPersonaje` require an object in the player's cell. On a null cell the source throws `NullReferenceException` at `BoardManager.cs:230`, before writing any cell, and the model has no such exception path. Only a zero move from bare floor, or a removal that empties the player's cell, can lead there.
- `Time.time` becomes the `now` parameter. The float `TiempoEntreMovimientos` (default 5) and `_TiempoProximoCom` become `real`, so float rounding is not modelled.
- `Vector2Int` arithmetic is unbounded `int`. Only positions within one step of the board occur, so 32-bit overflow cannot arise.
- In `UIManager.cs` the image, sprite and `RectTransform` work, the float padding offsets, the alpha handling, panel activation and `OnClickGo` are left out. An arrow keeps only its rotation and its slot.
- The rotation is kept as integer degrees. The source's float values 0, 90, 180 and 270 are exact.
