/** The "Ribbet Ribbet!" text: `showRibbitText()` and the one-shot hide it arms.

    The engine's `time.delayedCall(1000, ...)` is replaced by an explicit deadline. Only
    `showRibbitText()` arms the hide, and only while the text is hidden; only the hide makes the
    text hidden again. So a hide is pending exactly when the text is visible, and `hideAt` is
    its deadline. */
module Feedback {

  /** The delay of the hide armed by `showRibbitText()`, in milliseconds. */
  const HideDelay: int := 1000

  /** `ribbitText.visible` and the time at which the pending hide fires. */
  datatype Marker = Marker(visible: bool, hideAt: int)

  /** `create()` hides the text; no hide is pending. */
  const Initial: Marker := Marker(false, 0)

  /** `showRibbitText()` at time `now`: acts only when the text is hidden. */
  function Show(m: Marker, now: int): (r: Marker)
    ensures r.visible
    ensures m.visible ==> r == m
    ensures !m.visible ==> r.hideAt == now + HideDelay
  {
    if !m.visible then Marker(true, now + HideDelay) else m
  }

  /** The engine's clock at time `now`: a pending hide whose time has come hides the text. */
  function Expire(m: Marker, now: int): (r: Marker)
    ensures r.visible <==> m.visible && now < m.hideAt
    ensures r.hideAt == m.hideAt
  {
    if m.visible && now >= m.hideAt then m.(visible := false) else m
  }

  /** One frame: the engine's clock runs the due hide first, then `update()` calls
      `showRibbitText()` if the player collides with the NPC. */
  function Tick(m: Marker, collides: bool, now: int): (r: Marker)
    ensures r.visible <==> collides || (m.visible && now < m.hideAt)
    ensures r.hideAt == (if collides && !(m.visible && now < m.hideAt) then now + HideDelay else m.hideAt)
  {
    var e := Expire(m, now);
    if collides then Show(e, now) else e
  }

  /** One frame of input: the collision result and the clock. */
  datatype Frame = Frame(collides: bool, now: int)

  /** The marker after a sequence of frames. */
  function Replay(m: Marker, frames: seq<Frame>): Marker
    decreases |frames|
  {
    if frames == [] then m else Replay(Tick(m, frames[0].collides, frames[0].now), frames[1..])
  }

  /** While the text is visible and its deadline has not come, no frame changes it: repeated
      collisions neither re-arm nor extend the hide. */
  lemma {:induction false} VisibleUntilDeadline(m: Marker, frames: seq<Frame>)
    requires m.visible
    requires forall i :: 0 <= i < |frames| ==> frames[i].now < m.hideAt
    ensures Replay(m, frames) == m
    decreases |frames|
  {
    if frames != [] {
      VisibleUntilDeadline(Tick(m, frames[0].collides, frames[0].now), frames[1..]);
    }
  }

  /** A contact that starts at `t` while the text is hidden shows it once, with the hide at
      `t + 1000`, however many colliding frames follow before that time. */
  lemma {:induction false} ShownOncePerContact(m: Marker, t: int, frames: seq<Frame>)
    requires !m.visible
    requires forall i :: 0 <= i < |frames| ==> t <= frames[i].now < t + HideDelay
    ensures Replay(m, [Frame(true, t)] + frames) == Marker(true, t + HideDelay)
  {
    assert ([Frame(true, t)] + frames)[1..] == frames;
    VisibleUntilDeadline(Marker(true, t + HideDelay), frames);
  }

  /** Once its deadline has come, the text is hidden at the frame's end unless that frame
      collides too. */
  lemma HiddenAfterDeadline(m: Marker, now: int)
    requires m.visible && now >= m.hideAt
    ensures !Tick(m, false, now).visible
    ensures Tick(m, true, now) == Marker(true, now + HideDelay)
  {
  }
}
