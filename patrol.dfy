/** The NPC's fixed-cycle patrol inside `npcBounds`, the second part of `Game.update()`.

    The NPC moves `npcSpeed` = 0.5 world units per tick. Positions here are counted in
    half-units (twice the world coordinate), so every position the NPC reaches from its
    integer start is an integer and one step is one half-unit. */
module Patrol {
  import opened Heading

  /** `npcBounds`, in world units. */
  const BoundLeft: int := 800
  const BoundRight: int := 1200
  const BoundTop: int := 600
  const BoundBottom: int := 900

  /** The NPC's position in half-units (`2 * npc.x`, `2 * npc.y`) and `npcDirection`. */
  datatype Npc = Npc(x2: int, y2: int, heading: Dir)

  /** `create()` puts the NPC at (1000, 700) and leaves `npcDirection` as it is. */
  function Spawn(d: Dir): Npc {
    Npc(2 * 1000, 2 * 700, d)
  }

  /** The first start of the scene: `npcDirection` is initialised to right. */
  const Start: Npc := Spawn(Right)

  /** The edge of `npcBounds` that heading `d` runs towards, in half-units. */
  function Edge(d: Dir): int {
    match d
    case Left => 2 * BoundLeft
    case Right => 2 * BoundRight
    case Up => 2 * BoundTop
    case Down => 2 * BoundBottom
  }

  /** The next heading of the cycle right, down, left, up, right. */
  function Turn(d: Dir): Dir {
    match d
    case Right => Down
    case Down => Left
    case Left => Up
    case Up => Right
  }

  /** The coordinate that heading `d` changes. */
  function Coord(n: Npc, d: Dir): int {
    if Horizontal(d) then n.x2 else n.y2
  }

  /** The coordinate that heading `d` leaves alone. */
  function Cross(n: Npc, d: Dir): int {
    if Horizontal(d) then n.y2 else n.x2
  }

  /** The direction of travel along the axis: +1 towards right and bottom, -1 otherwise. */
  function Sign(d: Dir): int {
    if d == Right || d == Down then 1 else -1
  }

  /** Has coordinate `c` reached the edge of heading `d`? (`>=` the right and bottom bounds,
      `<=` the left and top bounds.) */
  predicate Reached(d: Dir, c: int) {
    match d
    case Right => c >= Edge(Right)
    case Down => c >= Edge(Down)
    case Left => c <= Edge(Left)
    case Up => c <= Edge(Up)
  }

  /** One tick of the switch on `npcDirection`: move half a unit along the heading, then turn
      to the next heading of the cycle if the coordinate just moved has reached its edge. */
  function Step(n: Npc): (m: Npc)
    ensures Coord(m, n.heading) == Coord(n, n.heading) + Sign(n.heading)
    ensures Cross(m, n.heading) == Cross(n, n.heading)
    ensures m.heading != n.heading <==> Reached(n.heading, Coord(m, n.heading))
    ensures m.heading == n.heading || m.heading == Turn(n.heading)
  {
    match n.heading
    case Right =>
      var x := n.x2 + 1;
      Npc(x, n.y2, if x >= Edge(Right) then Down else Right)
    case Down =>
      var y := n.y2 + 1;
      Npc(n.x2, y, if y >= Edge(Down) then Left else Down)
    case Left =>
      var x := n.x2 - 1;
      Npc(x, n.y2, if x <= Edge(Left) then Up else Left)
    case Up =>
      var y := n.y2 - 1;
      Npc(n.x2, y, if y <= Edge(Up) then Right else Up)
  }

  /** The NPC after `k` ticks. */
  function Run(n: Npc, k: nat): Npc
    decreases k
  {
    if k == 0 then n else Run(Step(n), k - 1)
  }

  /** The NPC lies in the closed rectangle `npcBounds`. */
  predicate Inside(n: Npc) {
    Edge(Left) <= n.x2 <= Edge(Right) && Edge(Up) <= n.y2 <= Edge(Down)
  }

  /** The patrol invariant: inside the rectangle, and neither the edge the NPC is heading for
      nor the edge of the heading after it has been reached yet. */
  predicate Patrolling(n: Npc) {
    Inside(n)
    && !Reached(n.heading, Coord(n, n.heading))
    && !Reached(Turn(n.heading), Coord(n, Turn(n.heading)))
  }

  lemma StepKeepsPatrolling(n: Npc)
    requires Patrolling(n)
    ensures Patrolling(Step(n))
  {
  }

  lemma {:induction false} RunKeepsPatrolling(n: Npc, k: nat)
    requires Patrolling(n)
    ensures Patrolling(Run(n, k))
    decreases k
  {
    if k > 0 {
      StepKeepsPatrolling(n);
      RunKeepsPatrolling(Step(n), k - 1);
    }
  }

  /** Whatever heading the NPC kept from an earlier run of the scene, the position set by
      `create()` is on the patrol. */
  lemma SpawnPatrolling(d: Dir)
    ensures Patrolling(Spawn(d))
  {
  }

  /** From the position set by `create()`, with any heading (right on the first start), the
      NPC never leaves the closed rectangle and never heads for an edge it stands on, however
      many ticks pass. */
  lemma {:induction false} StaysInBounds(d: Dir, k: nat)
    ensures Inside(Run(Spawn(d), k))
    ensures !Reached(Run(Spawn(d), k).heading, Coord(Run(Spawn(d), k), Run(Spawn(d), k).heading))
  {
    SpawnPatrolling(d);
    RunKeepsPatrolling(Spawn(d), k);
  }

  lemma {:induction false} RunAdd(n: Npc, a: nat, b: nat)
    ensures Run(n, a + b) == Run(Run(n, a), b)
    decreases a
  {
    if a > 0 {
      RunAdd(Step(n), a - 1, b);
    }
  }

  /** Ticks left until the NPC reaches the edge of its heading. */
  function Distance(n: Npc): int {
    match n.heading
    case Right => Edge(Right) - n.x2
    case Down => Edge(Down) - n.y2
    case Left => n.x2 - Edge(Left)
    case Up => n.y2 - Edge(Up)
  }

  /** Where a leg of the patrol ends: on the edge of the heading, turned to the next one. */
  function Arrival(n: Npc): Npc {
    match n.heading
    case Right => Npc(Edge(Right), n.y2, Down)
    case Down => Npc(n.x2, Edge(Down), Left)
    case Left => Npc(Edge(Left), n.y2, Up)
    case Up => Npc(n.x2, Edge(Up), Right)
  }

  /** During a leg the NPC keeps its heading and closes on its edge by one half-unit a tick. */
  lemma {:induction false} LegKeepsHeading(n: Npc, j: nat)
    requires j < Distance(n)
    ensures Run(n, j).heading == n.heading
    ensures Distance(Run(n, j)) == Distance(n) - j
    ensures Cross(Run(n, j), n.heading) == Cross(n, n.heading)
    decreases j
  {
    if j > 0 {
      LegKeepsHeading(Step(n), j - 1);
    }
  }

  /** A leg ends on the edge of the heading, turned to the next heading. */
  lemma {:induction false} Leg(n: Npc)
    requires Distance(n) >= 1
    ensures Run(n, Distance(n)) == Arrival(n)
    decreases Distance(n)
  {
    if Distance(n) > 1 {
      Leg(Step(n));
    }
  }

  /** The bottom-right corner, heading left: the first corner the patrol reaches. */
  const Corner: Npc := Npc(Edge(Right), Edge(Down), Left)

  /** Perimeter of the rectangle in half-units: the length of one lap. */
  const LapTicks: nat := 2 * ((Edge(Right) - Edge(Left)) + (Edge(Down) - Edge(Up)))

  /** Right 200 units to the right edge, then down 200 units to the bottom-right corner. */
  lemma {:induction false} ReachesCorner()
    ensures Run(Start, 800) == Corner
  {
    Leg(Start);
    Leg(Arrival(Start));
    RunAdd(Start, 400, 400);
  }

  /** From the corner the NPC goes once around the border of the rectangle and is back. */
  lemma {:induction false} Lap()
    ensures Run(Corner, LapTicks) == Corner
  {
    var a := Arrival(Corner);
    var b := Arrival(a);
    var c := Arrival(b);
    Leg(Corner);
    Leg(a);
    Leg(b);
    Leg(c);
    RunAdd(Corner, 800, 600);
    RunAdd(Corner, 1400, 800);
    RunAdd(Corner, 2200, 600);
  }

  /** After the first 800 ticks the patrol repeats itself every lap (2800 ticks). */
  lemma {:induction false} Periodic(k: nat)
    requires k >= 800
    ensures Run(Start, k + LapTicks) == Run(Start, k)
  {
    var j := k - 800;
    RunAdd(Start, 800, j + 2800);
    ReachesCorner();
    RunAdd(Corner, 2800, j);
    Lap();
    RunAdd(Start, 800, j);
  }
}
