/** The 3x3 maze board: its tiles, the player position, the tile hidden under
    the player, and the move executor that swaps the player between cells.
    The pure part (`BoardState`, `Move` and the lemmas about them) is the
    specification that the class `BoardManager`, which owns a two-dimensional
    array as the source does, is proved against. */
module Board {
  import opened Wrappers

  /** Number of rows and columns of the board. */
  const Rows := 3
  const Cols := 3

  /** What a board cell holds. `Empty` is the source's null reference (bare
      floor); the other kinds stand for an instance of the wall, goal, revert
      or player prefab. */
  datatype Tile = Empty | Wall | Goal | Revert | Player

  /** An integer vector: a cell coordinate (column `x`, row `y`) or a
      displacement. */
  datatype Vec = Vec(x: int, y: int)

  function Add(a: Vec, b: Vec): Vec
  {
    Vec(a.x + b.x, a.y + b.y)
  }

  function Neg(a: Vec): Vec
  {
    Vec(-a.x, -a.y)
  }

  /** True when `p` does not name a cell of the board. */
  predicate PosicionAFueraDelTablero(p: Vec)
    ensures !PosicionAFueraDelTablero(p) <==> 0 <= p.y < Rows && 0 <= p.x < Cols
  {
    var afueraSuperior := p.x >= Cols || p.y >= Rows;
    var afueraInferior := p.x < 0 || p.y < 0;
    afueraSuperior || afueraInferior
  }

  /** `p` names a cell of the board. */
  predicate InBounds(p: Vec)
  {
    !PosicionAFueraDelTablero(p)
  }

  /** The grid, indexed `[y][x]` like the source's `[y, x]` array. */
  type Grid = seq<seq<Tile>>

  predicate WellFormed(g: Grid)
  {
    |g| == Rows && forall y :: 0 <= y < Rows ==> |g[y]| == Cols
  }

  function Get(g: Grid, p: Vec): Tile
    requires WellFormed(g) && InBounds(p)
  {
    g[p.y][p.x]
  }

  function Set(g: Grid, p: Vec, t: Tile): (r: Grid)
    requires WellFormed(g) && InBounds(p)
    ensures WellFormed(r) && Get(r, p) == t
    ensures forall q :: InBounds(q) && q != p ==> Get(r, q) == Get(g, q)
  {
    g[p.y := g[p.y][p.x := t]]
  }

  /** Two well-formed grids that agree on every cell are the same grid. */
  lemma GridExtensionality(g: Grid, h: Grid)
    requires WellFormed(g) && WellFormed(h)
    requires forall q :: InBounds(q) ==> Get(g, q) == Get(h, q)
    ensures g == h
  {
    forall y | 0 <= y < Rows
      ensures g[y] == h[y]
    {
      forall x | 0 <= x < Cols
        ensures g[y][x] == h[y][x]
      {
        assert Get(g, Vec(x, y)) == Get(h, Vec(x, y));
      }
    }
  }

  /** The layout the board starts from. */
  function Layout(): (g: Grid)
    ensures WellFormed(g)
  {
    [ [Wall, Wall,   Wall],
      [Goal, Revert, Wall],
      [Wall, Player, Wall] ]
  }

  /** Everything the move executor reads and writes. */
  datatype BoardState = BoardState(grid: Grid, pos: Vec, under: Tile)

  /** A board on which `MoverPersonaje` can index the player's cell. */
  predicate Sound(s: BoardState)
  {
    WellFormed(s.grid) && InBounds(s.pos)
  }

  /** A board on which `MoverPersonaje` does not fail: the player's cell
      holds an object, whose transform it moves. On a null cell the source
      throws before writing anything. */
  predicate Movable(s: BoardState)
  {
    Sound(s) && Get(s.grid, s.pos) != Empty
  }

  /** The player object sits at `pos`, in no other cell, and is not the tile
      remembered under it. */
  ghost predicate PlayerInvariant(s: BoardState)
  {
    Sound(s) && Get(s.grid, s.pos) == Player && s.under != Player &&
    forall q :: InBounds(q) && q != s.pos ==> Get(s.grid, q) != Player
  }

  datatype MoveResult = MoveResult(ok: bool, board: BoardState)

  /** The effect of `MoverPersonaje(d)`: leave everything alone when the
      target is off the board; otherwise move the player object into the
      target, put the remembered tile back into the cell left, and remember
      what the target held. */
  function Move(s: BoardState, d: Vec): (r: MoveResult)
    requires Movable(s)
    ensures Sound(r.board) && (d != Vec(0, 0) ==> Movable(r.board))
    ensures r.ok <==> InBounds(Add(s.pos, d))
    ensures !r.ok ==> r.board == s
    ensures r.ok ==> r.board.pos == Add(s.pos, d)
    ensures r.ok ==> r.board.under == Get(s.grid, Add(s.pos, d))
    ensures r.ok ==> Get(r.board.grid, s.pos) == s.under
    ensures r.ok && Add(s.pos, d) != s.pos ==>
              Get(r.board.grid, Add(s.pos, d)) == Get(s.grid, s.pos)
    ensures r.ok ==> forall q :: InBounds(q) && q != s.pos && q != Add(s.pos, d) ==>
              Get(r.board.grid, q) == Get(s.grid, q)
  {
    var nuevaPos := Add(s.pos, d);
    if PosicionAFueraDelTablero(nuevaPos) then
      MoveResult(false, s)
    else
      var objetoAMoverse := Get(s.grid, nuevaPos);
      var persojJugador := Get(s.grid, s.pos);
      var g := Set(Set(s.grid, nuevaPos, persojJugador), s.pos, s.under);
      MoveResult(true, BoardState(g, nuevaPos, objetoAMoverse))
  }

  /** A move by a non-zero displacement keeps the player in exactly one cell. */
  lemma MovePreservesPlayerInvariant(s: BoardState, d: Vec)
    requires PlayerInvariant(s) && d != Vec(0, 0)
    ensures PlayerInvariant(Move(s, d).board)
  {
    var r := Move(s, d);
    if r.ok {
      var t := Add(s.pos, d);
      assert t != s.pos;
      forall q | InBounds(q) && q != r.board.pos
        ensures Get(r.board.grid, q) != Player
      {
        if q == s.pos {
        } else {
          assert Get(r.board.grid, q) == Get(s.grid, q);
        }
      }
    }
  }

  /** A zero displacement is the one move that breaks the invariant: the
      player object ends up remembered under itself. */
  lemma ZeroMoveBreaksPlayerInvariant(s: BoardState)
    requires PlayerInvariant(s)
    ensures Move(s, Vec(0, 0)).ok
    ensures Move(s, Vec(0, 0)).board.under == Player
    ensures !PlayerInvariant(Move(s, Vec(0, 0)).board)
  {
    assert Add(s.pos, Vec(0, 0)) == s.pos;
  }

  /** An in-bounds move, written out. */
  lemma MoveInBounds(s: BoardState, d: Vec)
    requires Movable(s) && InBounds(Add(s.pos, d))
    ensures Move(s, d) == MoveResult(true, BoardState(
              Set(Set(s.grid, Add(s.pos, d), Get(s.grid, s.pos)), s.pos, s.under),
              Add(s.pos, d), Get(s.grid, Add(s.pos, d))))
  {
  }

  /** Writing two cells and then writing them back with their old contents
      gives the original grid. */
  lemma SwapBack(g: Grid, p: Vec, t: Vec, u: Tile)
    requires WellFormed(g) && InBounds(p) && InBounds(t)
    ensures var g1 := Set(Set(g, t, Get(g, p)), p, u);
            Set(Set(g1, p, Get(g1, t)), t, Get(g, t)) == g
  {
    var g1 := Set(Set(g, t, Get(g, p)), p, u);
    var g2 := Set(Set(g1, p, Get(g1, t)), t, Get(g, t));
    forall q | InBounds(q)
      ensures Get(g2, q) == Get(g, q)
    {
    }
    GridExtensionality(g2, g);
  }

  /** Moving by `d` and then by `-d`, when the second move can be made (a
      zero move can leave null in the player's cell), restores the grid, the player position
      and the remembered tile. */
  lemma MoveRoundTrip(s: BoardState, d: Vec)
    requires Movable(s) && Move(s, d).ok && Movable(Move(s, d).board)
    ensures Move(Move(s, d).board, Neg(d)).ok
    ensures Move(Move(s, d).board, Neg(d)).board == s
  {
    MoveInBounds(s, d);
    var s1 := Move(s, d).board;
    assert Add(s1.pos, Neg(d)) == s.pos;
    MoveInBounds(s1, Neg(d));
    SwapBack(s.grid, s.pos, s1.pos, s.under);
  }

  /** `EsClonDelPrefab`: a null cell is no prefab's instance; otherwise an
      instance belongs to the prefab of its own kind. */
  predicate EsClonDelPrefab(instancia: Tile, prefab: Tile)
    requires prefab != Empty
    ensures EsClonDelPrefab(instancia, prefab) <==> instancia == prefab
  {
    if instancia == Empty then false else instancia == prefab
  }

  /** The player stands on the goal. */
  predicate OnGoal(s: BoardState)
    ensures OnGoal(s) <==> s.under == Goal
  {
    EsClonDelPrefab(s.under, Goal)
  }

  /** The player stands on a wall. */
  predicate HitWall(s: BoardState)
    ensures HitWall(s) <==> s.under == Wall
  {
    EsClonDelPrefab(s.under, Wall)
  }

  /** The player stands on the revert marker. */
  predicate OnRevert(s: BoardState)
    ensures OnRevert(s) <==> s.under == Revert
  {
    EsClonDelPrefab(s.under, Revert)
  }

  /** On bare floor the player is neither on the goal, nor on a wall, nor on
      the revert marker. */
  lemma FloorIsNeutral(s: BoardState)
    requires s.under == Empty
    ensures !OnGoal(s) && !HitWall(s) && !OnRevert(s)
  {
  }

  /** `HayParedEnLaPos` as written: true exactly in column 0, whatever the
      board holds. */
  function HayParedEnLaPos(posicion: Vec): bool
  {
    posicion.x == 0
  }

  /** On the starting layout that answer differs from the cells: (x=0, y=1)
      is the goal and (x=2, y=0) is a wall. */
  lemma HayParedIgnoresLayout()
    ensures HayParedEnLaPos(Vec(0, 1)) && Get(Layout(), Vec(0, 1)) == Goal
    ensures !HayParedEnLaPos(Vec(2, 0)) && Get(Layout(), Vec(2, 0)) == Wall
  {
  }

  // Finding the player start: the setup loop visits the cells row by row and
  // records the coordinate of every player cell it meets, so the last one in
  // row-major order wins.

  /** Cell `q` comes before cell (x, y) in row-major order. */
  predicate Before(q: Vec, y: int, x: int)
  {
    q.y < y || (q.y == y && q.x < x)
  }

  /** A point the scan reaches: a cell, the end of a row, or the end of the
      board. */
  predicate ScanPoint(y: int, x: int)
  {
    (0 <= y < Rows && 0 <= x <= Cols) || (y == Rows && x == 0)
  }

  /** The last player cell the scan has met once it reaches cell (x, y):
      the cells of rows above `y`, then the first `x` cells of row `y`. */
  function LastPlayer(g: Grid, y: int, x: int): (r: Option<Vec>)
    requires WellFormed(g) && ScanPoint(y, x)
    ensures r.Some? ==> InBounds(r.value) && Get(g, r.value) == Player && Before(r.value, y, x)
    decreases y, x
  {
    if x == 0 then
      if y == 0 then None else LastPlayer(g, y - 1, Cols)
    else if Get(g, Vec(x - 1, y)) == Player then Some(Vec(x - 1, y))
    else LastPlayer(g, y, x - 1)
  }

  /** The scan finds the last player cell: every player cell it has passed
      is the one found or comes before it, so `None` means there is none. */
  lemma {:induction false} LastPlayerIsLast(g: Grid, y: int, x: int, q: Vec)
    requires WellFormed(g) && ScanPoint(y, x)
    requires InBounds(q) && Before(q, y, x) && Get(g, q) == Player
    ensures LastPlayer(g, y, x).Some?
    ensures q == LastPlayer(g, y, x).value || Before(q, LastPlayer(g, y, x).value.y, LastPlayer(g, y, x).value.x)
    decreases y, x
  {
    if x == 0 {
      LastPlayerIsLast(g, y - 1, Cols, q);
    } else if Get(g, Vec(x - 1, y)) != Player {
      LastPlayerIsLast(g, y, x - 1, q);
    }
  }

  /** When `p` is the only player cell, the scan finds `p` once it has
      passed it, and nothing before. */
  lemma {:induction false} LastPlayerUnique(g: Grid, p: Vec, y: int, x: int)
    requires WellFormed(g) && InBounds(p) && ScanPoint(y, x)
    requires forall q :: InBounds(q) ==> (Get(g, q) == Player <==> q == p)
    ensures LastPlayer(g, y, x) == if Before(p, y, x) then Some(p) else None
    decreases y, x
  {
    if x == 0 {
      if y > 0 {
        LastPlayerUnique(g, p, y - 1, Cols);
      }
    } else if Vec(x - 1, y) != p {
      assert Get(g, Vec(x - 1, y)) != Player;
      LastPlayerUnique(g, p, y, x - 1);
    }
  }

  /** On the starting layout the player starts at (x=1, y=2). */
  lemma LayoutStart()
    ensures LastPlayer(Layout(), Rows, 0) == Some(Vec(1, 2))
    ensures forall q :: InBounds(q) ==> (Get(Layout(), q) == Player <==> q == Vec(1, 2))
  {
    assert forall q :: InBounds(q) ==> (Get(Layout(), q) == Player <==> q == Vec(1, 2)) by {
      forall q | InBounds(q)
        ensures Get(Layout(), q) == Player <==> q == Vec(1, 2)
      {
        assert q.x == 0 || q.x == 1 || q.x == 2;
        assert q.y == 0 || q.y == 1 || q.y == 2;
      }
    }
    LastPlayerUnique(Layout(), Vec(1, 2), Rows, 0);
  }

  /** The board object: a fixed 3x3 array of tiles indexed `[y, x]`, the
      player position and the tile under the player. `grid` is the array's
      contents as a value. */
  class BoardManager {
    var cells: array2<Tile>
    var pos: Vec
    var under: Tile
    ghost var grid: Grid

    ghost predicate Valid()
      reads this, cells
    {
      cells.Length0 == Rows && cells.Length1 == Cols &&
      WellFormed(grid) && InBounds(pos) &&
      forall y, x :: 0 <= y < Rows && 0 <= x < Cols ==> cells[y, x] == grid[y][x]
    }

    ghost function State(): BoardState
      reads this
    {
      BoardState(grid, pos, under)
    }

    /** `Awake`: the array is filled from the fixed layout and the position
        is the zero vector. */
    constructor ()
      ensures Valid() && fresh(cells)
      ensures grid == Layout() && pos == Vec(0, 0) && under == Empty
    {
      var layout := Layout();
      cells := new Tile[Rows, Cols]((y, x) requires 0 <= y < Rows && 0 <= x < Cols => layout[y][x]);
      pos := Vec(0, 0);
      under := Empty;
      grid := layout;
    }

    /** `Start`: places the objects of the layout, which puts the player at
        its start cell on bare floor. */
    method Start()
      requires Valid() && grid == Layout()
      modifies this
      ensures Valid() && cells == old(cells) && grid == old(grid)
      ensures pos == Vec(1, 2) && under == Empty
      ensures PlayerInvariant(State())
    {
      AgregarObjetosAlTablero();
      LayoutStart();
    }

    /** Visits every cell row by row; at the player cell it records the
        position and that the tile under the player is bare floor. Creating
        the instances does not change any cell's kind, so the array keeps
        its contents. */
    method AgregarObjetosAlTablero()
      requires Valid()
      modifies this
      ensures Valid() && cells == old(cells) && grid == old(grid)
      ensures match LastPlayer(grid, Rows, 0)
              case Some(p) => pos == p && under == Empty
              case None => pos == old(pos) && under == old(under)
    {
      for y := 0 to Rows
        invariant Valid() && cells == old(cells) && grid == old(grid)
        invariant match LastPlayer(grid, y, 0)
                  case Some(p) => pos == p && under == Empty
                  case None => pos == old(pos) && under == old(under)
      {
        for x := 0 to Cols
          invariant Valid() && cells == old(cells) && grid == old(grid)
          invariant match LastPlayer(grid, y, x)
                    case Some(p) => pos == p && under == Empty
                    case None => pos == old(pos) && under == old(under)
        {
          var objetoAInstanciar := cells[y, x];
          if objetoAInstanciar != Empty {
            if objetoAInstanciar == Player {
              pos := Vec(x, y);
              under := Empty;
            }
          }
        }
      }
    }

    /** Moves the player by `movimiento`; false, with nothing changed, when
        the target is off the board. */
    method MoverPersonaje(movimiento: Vec) returns (ok: bool)
      requires Valid() && Movable(State())
      modifies this, cells
      ensures Valid() && cells == old(cells)
      ensures MoveResult(ok, State()) == Move(old(State()), movimiento)
    {
      var nuevaPos := Add(pos, movimiento);
      if PosicionAFueraDelTablero(nuevaPos) {
        return false;
      }
      var objetoAMoverse := cells[nuevaPos.y, nuevaPos.x];
      var persojJugador := cells[pos.y, pos.x];
      cells[nuevaPos.y, nuevaPos.x] := persojJugador;
      cells[pos.y, pos.x] := under;
      grid := Set(Set(grid, nuevaPos, persojJugador), pos, under);
      pos := nuevaPos;
      under := objetoAMoverse;
      ok := true;
    }

    /** The object that undoes commands is taken off the board. Its removal
        is not part of this model: the only promise is that the board stays
        well-formed and the player's cell keeps its object. */
    method RemoverObjDeshacer()
      requires Valid() && Movable(State())
      modifies this, cells
      ensures Valid() && Movable(State()) && cells == old(cells)
    {
    }

    predicate JugadorenMeta()
      reads this
      ensures JugadorenMeta() <==> OnGoal(State())
    {
      EsClonDelPrefab(under, Goal)
    }

    predicate JugadorChocoPared()
      reads this
      ensures JugadorChocoPared() <==> HitWall(State())
    {
      EsClonDelPrefab(under, Wall)
    }

    predicate JugadorEnRevertir()
      reads this
      ensures JugadorEnRevertir() <==> OnRevert(State())
    {
      EsClonDelPrefab(under, Revert)
    }
  }
}
