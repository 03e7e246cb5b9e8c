/** Headings and walk animations shared by the player and the NPC of the `Game` scene. */
module Heading {

  /** The four cardinal headings (`npcDirection`'s type, and the player's key directions).
      Screen coordinates: x grows to the right, y grows downwards. */
  datatype Dir = Left | Right | Up | Down

  /** The animation a sprite was last asked for: `play("walk-<d>", true)` (the NPC's
      `"npc-walk-<d>"`), or `stop()` / nothing played yet. */
  datatype Anim = Stopped | Walking(dir: Dir)

  predicate Horizontal(d: Dir) {
    d == Left || d == Right
  }
}
