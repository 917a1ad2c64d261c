/** The slice of the user interface that the game engine depends on: the four
    directions, the rotation given to an arrow icon for each of them, and the
    grid slot in which the k-th arrow of the command panel is placed. */
module UserInterface {

  /** The four directions a command, an arrow or the character can take. */
  datatype Direccion = Arriba | Derecha | Abajo | Izquierda

  /** The direction pointing the other way. */
  function Opposite(d: Direccion): (o: Direccion)
    ensures o != d
  {
    match d
    case Arriba => Abajo
    case Abajo => Arriba
    case Derecha => Izquierda
    case Izquierda => Derecha
  }

  /** Rotation, in degrees counter-clockwise, of the arrow image (which points
      left) so that it points in direction `d`. */
  function ArrowRotation(d: Direccion): (deg: int)
    ensures 0 <= deg < 360 && deg % 90 == 0
    ensures deg == 270 <==> d == Arriba
    ensures deg == 180 <==> d == Derecha
    ensures deg == 90 <==> d == Abajo
    ensures deg == 0 <==> d == Izquierda
  {
    match d
    case Arriba => 270
    case Derecha => 180
    case Abajo => 90
    case Izquierda => 0
  }

  /** A direction on the screen, with `x` to the right and `y` upwards. */
  datatype Heading = Heading(x: int, y: int)

  /** Where direction `d` points on the screen. */
  function ScreenVector(d: Direccion): Heading
  {
    match d
    case Arriba => Heading(0, 1)
    case Derecha => Heading(1, 0)
    case Abajo => Heading(0, -1)
    case Izquierda => Heading(-1, 0)
  }

  /** Cosine and sine of a whole number of quarter turns. */
  function Cos(deg: int): int
    requires 0 <= deg < 360 && deg % 90 == 0
  {
    if deg == 0 then 1 else if deg == 180 then -1 else 0
  }

  function Sin(deg: int): int
    requires 0 <= deg < 360 && deg % 90 == 0
  {
    if deg == 90 then 1 else if deg == 270 then -1 else 0
  }

  /** `v` rotated counter-clockwise by `deg` degrees. */
  function Rotated(v: Heading, deg: int): Heading
    requires 0 <= deg < 360 && deg % 90 == 0
  {
    Heading(v.x * Cos(deg) - v.y * Sin(deg), v.x * Sin(deg) + v.y * Cos(deg))
  }

  /** The rotation table is geometry: rotating the left-pointing arrow
      counter-clockwise by `ArrowRotation(d)` degrees makes it point in
      direction `d`. */
  lemma ArrowPointsThatWay(d: Direccion)
    ensures Rotated(ScreenVector(Izquierda), ArrowRotation(d)) == ScreenVector(d)
  {
    match d
    case Arriba => assert ArrowRotation(d) == 270;
    case Derecha => assert ArrowRotation(d) == 180;
    case Abajo => assert ArrowRotation(d) == 90;
    case Izquierda => assert ArrowRotation(d) == 0;
  }

  /** Arrows of opposite directions are drawn half a turn apart, and no two
      directions share a rotation. */
  lemma ArrowRotationOpposite(d: Direccion, e: Direccion)
    ensures ArrowRotation(Opposite(d)) == (ArrowRotation(d) + 180) % 360
    ensures ArrowRotation(d) == ArrowRotation(e) ==> d == e
  {
  }

  /** Column and row of an arrow in the seven-column panel. */
  datatype Slot = Slot(column: int, row: int)

  /** Number of arrows per panel row. */
  const ArrowsPerRow := 7

  /** Slot of the arrow that is created when `k` arrows are already shown. */
  function ArrowSlot(k: nat): (s: Slot)
    ensures 0 <= s.column < ArrowsPerRow && 0 <= s.row
    ensures k == s.row * ArrowsPerRow + s.column
  {
    Slot(k % ArrowsPerRow, k / ArrowsPerRow)
  }

  /** Distinct arrow counts give distinct slots: arrows never overlap. */
  lemma {:induction false} ArrowSlotInjective(k1: nat, k2: nat)
    requires ArrowSlot(k1) == ArrowSlot(k2)
    ensures k1 == k2
  {
    var s := ArrowSlot(k1);
    assert k1 == s.row * ArrowsPerRow + s.column == k2;
  }

  /** One arrow icon of the command panel. */
  datatype Arrow = Arrow(rotation: int, slot: Slot)

  /** Every arrow sits in the slot given by its position in the list. */
  ghost predicate PlacedByIndex(arrows: seq<Arrow>)
  {
    forall i :: 0 <= i < |arrows| ==> arrows[i].slot == ArrowSlot(i)
  }

  /** In a list built by `CrearFlecha` no two arrows share a slot. */
  lemma ArrowsNeverOverlap(arrows: seq<Arrow>, i: nat, j: nat)
    requires PlacedByIndex(arrows)
    requires i < |arrows| && j < |arrows| && i != j
    ensures arrows[i].slot != arrows[j].slot
  {
    if arrows[i].slot == arrows[j].slot {
      ArrowSlotInjective(i, j);
    }
  }

  /** The command panel with its list of arrows. */
  class UIManager {
    var arrows: seq<Arrow>

    constructor ()
      ensures arrows == []
    {
      arrows := [];
    }

    /** Shows one more arrow pointing in direction `direc`. */
    method AgregarFlechaUI(direc: Direccion)
      modifies this
      ensures arrows == old(arrows) + [Arrow(ArrowRotation(direc), ArrowSlot(|old(arrows)|))]
      ensures PlacedByIndex(old(arrows)) ==> PlacedByIndex(arrows)
    {
      var rotation := 0;
      match direc {
        case Arriba => rotation := 270;
        case Derecha => rotation := 180;
        case Abajo => rotation := 90;
        case Izquierda =>
      }
      CrearFlecha(rotation);
    }

    /** Appends an arrow with the given rotation in the next free slot. */
    method CrearFlecha(rotacion: int)
      modifies this
      ensures |arrows| == |old(arrows)| + 1 && arrows[..|old(arrows)|] == old(arrows)
      ensures arrows[|old(arrows)|] == Arrow(rotacion, ArrowSlot(|old(arrows)|))
      ensures PlacedByIndex(old(arrows)) ==> PlacedByIndex(arrows)
    {
      var totalFlechas := |arrows|;
      var columna := totalFlechas % ArrowsPerRow;
      var fila := totalFlechas / ArrowsPerRow;
      arrows := arrows + [Arrow(rotacion, Slot(columna, fila))];
    }
  }
}
