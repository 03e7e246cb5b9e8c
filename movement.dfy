/** Player movement from the held cursor keys, the first part of `Game.update()`. */
module Movement {
  import opened Heading

  /** `speed`: world units per axis per tick. */
  const Speed: int := 1

  /** Which cursor keys are held this tick (`cursors.left.isDown`, ...). */
  datatype Keys = Keys(left: bool, right: bool, up: bool, down: bool)

  /** The player's position (`player.x`, `player.y`) in world units; it starts at integers
      and moves by whole units, so integers represent it exactly. */
  datatype Position = Position(x: int, y: int)

  predicate Held(k: Keys, d: Dir) {
    match d
    case Left => k.left
    case Right => k.right
    case Up => k.up
    case Down => k.down
  }

  predicate AnyHeld(k: Keys) {
    k.left || k.right || k.up || k.down
  }

  /** The player's position after one tick: left beats right, up beats down, and the two
      axes are handled independently. */
  function Move(p: Position, k: Keys): (q: Position)
    ensures -Speed <= q.x - p.x <= Speed && -Speed <= q.y - p.y <= Speed
    ensures q.x < p.x <==> k.left
    ensures q.x == p.x <==> !k.left && !k.right
    ensures q.y < p.y <==> k.up
    ensures q.y == p.y <==> !k.up && !k.down
  {
    var x := if k.left then p.x - Speed else if k.right then p.x + Speed else p.x;
    var y := if k.up then p.y - Speed else if k.down then p.y + Speed else p.y;
    Position(x, y)
  }

  /** The player's animation after one tick: the last walk animation requested, or stopped
      when no key is held. The vertical request comes after the horizontal one. */
  function Animation(k: Keys): (a: Anim)
    ensures a == Stopped <==> !AnyHeld(k)
    ensures a.Walking? ==> Held(k, a.dir)
    ensures a.Walking? && Horizontal(a.dir) ==> !k.up && !k.down
    ensures a == Walking(Right) ==> !k.left
    ensures a == Walking(Down) ==> !k.up
  {
    var horizontal := if k.left then Walking(Left) else if k.right then Walking(Right) else Stopped;
    if k.up then Walking(Up) else if k.down then Walking(Down) else horizontal
  }

  /** The contract of Move pins down its result: any position meeting it is Move's. */
  lemma MoveDeterminedByContract(p: Position, k: Keys, q: Position)
    requires -Speed <= q.x - p.x <= Speed && -Speed <= q.y - p.y <= Speed
    requires q.x < p.x <==> k.left
    requires q.x == p.x <==> !k.left && !k.right
    requires q.y < p.y <==> k.up
    requires q.y == p.y <==> !k.up && !k.down
    ensures q == Move(p, k)
  {
  }

  /** A diagonal tick is a horizontal tick followed by a vertical one. */
  lemma AxesIndependent(p: Position, k: Keys)
    ensures Move(p, k) == Move(Move(p, k.(up := false, down := false)), k.(left := false, right := false))
  {
  }

  /** Holding right as well as left changes nothing: the player moves left by one. */
  lemma LeftBeatsRight(p: Position, k: Keys)
    requires k.left
    ensures Move(p, k.(right := true)) == Move(p, k.(right := false))
    ensures Move(p, k).x == p.x - Speed
  {
  }

  /** Holding down as well as up changes nothing: the player moves up by one. */
  lemma UpBeatsDown(p: Position, k: Keys)
    requires k.up
    ensures Move(p, k.(down := true)) == Move(p, k.(down := false))
    ensures Move(p, k).y == p.y - Speed
  {
  }
}
