/** Movement commands. A command has no state of its own: what `Execute`
    and `Undo` do depends only on which of the four kinds it is, and each
    one is a single move of the character in a fixed direction. */
module Commands {
  import opened UserInterface
  import opened Wrappers

  datatype Command = UpCommand | DownCommand | LeftCommand | RightCommand

  /** Direction of the one move made by `Execute`. */
  function ExecDir(c: Command): (d: Direccion)
    ensures c == UpCommand <==> d == Arriba
    ensures c == DownCommand <==> d == Abajo
    ensures c == LeftCommand <==> d == Izquierda
    ensures c == RightCommand <==> d == Derecha
  {
    match c
    case UpCommand => Arriba
    case DownCommand => Abajo
    case LeftCommand => Izquierda
    case RightCommand => Derecha
  }

  /** Direction of the one move made by `Undo`; `None` for the up command,
      which declares no `Undo`. */
  function UndoDir(c: Command): (r: Option<Direccion>)
    ensures r.None? <==> c == UpCommand
    ensures r.Some? ==> r.value == Opposite(ExecDir(c))
  {
    match c
    case UpCommand => None
    case DownCommand => Some(Arriba)
    case LeftCommand => Some(Derecha)
    case RightCommand => Some(Izquierda)
  }

  /** The up command moves the way the down command undoes. */
  lemma UpExecutesDownsUndo()
    ensures UndoDir(DownCommand) == Some(ExecDir(UpCommand))
  {
  }

  /** Distinct commands execute in distinct directions. */
  lemma ExecDirInjective(c: Command, e: Command)
    requires ExecDir(c) == ExecDir(e)
    ensures c == e
  {
  }
}
