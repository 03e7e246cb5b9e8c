/** The `Game` scene: its state and its per-frame `update()`. */
module Scene {
  import opened Heading
  import Movement
  import Patrol
  import Feedback

  /** How far above the NPC the ribbit text is placed, in world units. */
  const TextRise: real := 50.0

  class Game {
    /** `player.x`, `player.y`, in world units. */
    var playerX: int
    var playerY: int
    /** The player sprite's last requested animation. */
    var playerAnim: Anim
    /** `npc.x`, `npc.y`, in half-units (twice the world coordinate). */
    var npcX2: int
    var npcY2: int
    var npcDirection: Dir
    /** The NPC sprite's last requested animation. */
    var npcAnim: Anim
    /** `ribbitText.visible` and the deadline of the pending hide (see module Feedback). */
    var textVisible: bool
    var hideDeadline: int
    /** `ribbitText`'s position, in world units. */
    var textX: real
    var textY: real

    function Player(): Movement.Position
      reads this`playerX, this`playerY
    {
      Movement.Position(playerX, playerY)
    }

    function Npc(): Patrol.Npc
      reads this`npcX2, this`npcY2, this`npcDirection
    {
      Patrol.Npc(npcX2, npcY2, npcDirection)
    }

    function Ribbit(): Feedback.Marker
      reads this`textVisible, this`hideDeadline
    {
      Feedback.Marker(textVisible, hideDeadline)
    }

    /** The NPC's position in world units. */
    function NpcX(): real
      reads this`npcX2
    {
      npcX2 as real / 2.0
    }

    function NpcY(): real
      reads this`npcY2
    {
      npcY2 as real / 2.0
    }

    /** The scene's invariant: the NPC is on its patrol inside `npcBounds`. */
    ghost predicate Valid()
      reads this`npcX2, this`npcY2, this`npcDirection
    {
      Patrol.Patrolling(Npc())
    }

    /** A new scene instance: `npcDirection` is initialised to right, then the engine runs
        `create()` for the first start. */
    constructor ()
      ensures Valid()
      ensures Player() == Movement.Position(1024, 768) && playerAnim == Stopped
      ensures Npc() == Patrol.Start && npcAnim == Stopped
      ensures Ribbit() == Feedback.Initial
      ensures textX == 0.0 && textY == 0.0
    {
      npcDirection := Right;
      playerX, playerY, playerAnim := 0, 0, Stopped;
      npcX2, npcY2, npcAnim := 0, 0, Stopped;
      textVisible, hideDeadline := false, 0;
      textX, textY := 0.0, 0.0;
      new;
      Create();
    }

    /** `create()`: new sprites with the player at (1024, 768) and the NPC at (1000, 700), no
        animation playing, and a new ribbit text hidden at the origin. `npcDirection` is not
        assigned, so a restart of the scene keeps the heading of the previous run. */
    method Create()
      modifies this
      ensures Valid()
      ensures Player() == Movement.Position(1024, 768) && playerAnim == Stopped
      ensures Npc() == Patrol.Spawn(old(npcDirection)) && npcAnim == Stopped
      ensures Ribbit() == Feedback.Initial
      ensures textX == 0.0 && textY == 0.0
    {
      playerX, playerY := 1024, 768;
      playerAnim := Stopped;
      npcX2, npcY2 := 2 * 1000, 2 * 700;
      npcAnim := Stopped;
      textVisible, hideDeadline := false, 0;
      textX, textY := 0.0, 0.0;
      Patrol.SpawnPatrolling(npcDirection);
    }

    /** `update()` at time `now`, given the held keys, the result of `checkCollision` and the
        measured `ribbitText.width`. */
    method Update(keys: Movement.Keys, collides: bool, now: int, textWidth: real)
      modifies this
      ensures Player() == Movement.Move(old(Player()), keys)
      ensures playerAnim == Movement.Animation(keys)
      ensures Npc() == Patrol.Step(old(Npc()))
      ensures npcAnim == Walking(old(npcDirection))
      ensures Ribbit() == if collides then Feedback.Show(old(Ribbit()), now) else old(Ribbit())
      ensures textX == NpcX() - textWidth / 2.0 && textY == NpcY() - TextRise
      ensures old(Valid()) ==> Valid()
    {
      MovePlayer(keys);
      MoveNpc();
      if collides {
        ShowRibbitText(now);
      }
      textX := NpcX() - textWidth / 2.0;
      textY := NpcY() - TextRise;
    }

    /** The cursor-key part of `update()`. */
    method MovePlayer(keys: Movement.Keys)
      modifies this`playerX, this`playerY, this`playerAnim
      ensures Player() == Movement.Move(old(Player()), keys)
      ensures playerAnim == Movement.Animation(keys)
    {
      var isMoving := false;

      if keys.left {
        playerX := playerX - Movement.Speed;
        playerAnim := Walking(Left);
        isMoving := true;
      } else if keys.right {
        playerX := playerX + Movement.Speed;
        playerAnim := Walking(Right);
        isMoving := true;
      }

      if keys.up {
        playerY := playerY - Movement.Speed;
        playerAnim := Walking(Up);
        isMoving := true;
      } else if keys.down {
        playerY := playerY + Movement.Speed;
        playerAnim := Walking(Down);
        isMoving := true;
      }

      if !isMoving {
        playerAnim := Stopped;
      }
    }

    /** The `npcDirection` switch of `update()`. */
    method MoveNpc()
      modifies this`npcX2, this`npcY2, this`npcDirection, this`npcAnim
      ensures Npc() == Patrol.Step(old(Npc()))
      ensures npcAnim == Walking(old(npcDirection))
      ensures old(Valid()) ==> Valid()
    {
      ghost var before := Npc();
      match npcDirection {
        case Right =>
          npcX2 := npcX2 + 1;
          npcAnim := Walking(Right);
          if npcX2 >= 2 * Patrol.BoundRight {
            npcDirection := Down;
          }
        case Down =>
          npcY2 := npcY2 + 1;
          npcAnim := Walking(Down);
          if npcY2 >= 2 * Patrol.BoundBottom {
            npcDirection := Left;
          }
        case Left =>
          npcX2 := npcX2 - 1;
          npcAnim := Walking(Left);
          if npcX2 <= 2 * Patrol.BoundLeft {
            npcDirection := Up;
          }
        case Up =>
          npcY2 := npcY2 - 1;
          npcAnim := Walking(Up);
          if npcY2 <= 2 * Patrol.BoundTop {
            npcDirection := Right;
          }
      }
      if Patrol.Patrolling(before) {
        Patrol.StepKeepsPatrolling(before);
      }
    }

    /** `showRibbitText()` at time `now`: if the text is hidden, show it and arm its hide. */
    method ShowRibbitText(now: int)
      modifies this`textVisible, this`hideDeadline
      ensures Ribbit() == Feedback.Show(old(Ribbit()), now)
    {
      if !textVisible {
        textVisible := true;
        hideDeadline := now + Feedback.HideDelay;
      }
    }

    /** The engine's clock at time `now`: runs the hide armed by `showRibbitText()` once its
        deadline has come. */
    method RunDueHide(now: int)
      modifies this`textVisible
      ensures Ribbit() == Feedback.Expire(old(Ribbit()), now)
    {
      if textVisible && now >= hideDeadline {
        textVisible := false;
      }
    }

    /** One frame as the engine drives it: due timer callbacks, then `update()`. */
    method Frame(keys: Movement.Keys, collides: bool, now: int, textWidth: real)
      modifies this
      ensures Player() == Movement.Move(old(Player()), keys)
      ensures playerAnim == Movement.Animation(keys)
      ensures Npc() == Patrol.Step(old(Npc()))
      ensures npcAnim == Walking(old(npcDirection))
      ensures Ribbit() == Feedback.Tick(old(Ribbit()), collides, now)
      ensures textX == NpcX() - textWidth / 2.0 && textY == NpcY() - TextRise
      ensures old(Valid()) ==> Valid()
    {
      RunDueHide(now);
      Update(keys, collides, now, textWidth);
    }
  }

  /** A short session: what callers can conclude from the contracts alone. */
  method Session(w: real)
  {
    var g := new Game();
    var still := Movement.Keys(false, false, false, false);
    g.Frame(Movement.Keys(true, true, false, false), true, 0, w);
    assert g.playerX == 1023 && g.playerY == 768;
    assert g.textVisible && g.hideDeadline == 1000;
    g.Frame(still, true, 500, w);
    assert g.textVisible && g.hideDeadline == 1000;
    g.Frame(still, false, 1000, w);
    assert !g.textVisible;
    assert g.NpcX() == 1001.5 && g.NpcY() == 700.0;
    assert g.textY == 650.0;
  }
}
