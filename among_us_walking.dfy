/**
 * `AmongUsBodyViewModel`: the walking character's animation frame, its
 * position and velocity, which bounce off the walls of the play area, and
 * the timers that drive them.
 *
 * The timers are not run: each timer firing is a method call, and a timer
 * is recorded only as scheduled or not. The random direction is an input
 * velocity.
 */
module AmongUsWalking {

  /** `frameCount`: the number of frames in the walking animation. */
  const FrameCount: int := 5

  /** The margins of the play area: 30 points on the left and top, 70 on the right, 250 at the bottom. */
  const MarginLeft: real := 30.0
  const MarginRight: real := 70.0
  const MarginTop: real := 30.0
  const MarginBottom: real := 250.0

  function Abs(x: real): (r: real)
    ensures r >= 0.0 && (r == x || r == -x)
  {
    if x < 0.0 then -x else x
  }

  /** The frame after one tick of the frame timer. */
  function NextFrame(isWalking: bool, frame: int): (r: int)
    requires 0 <= frame < FrameCount
    ensures 0 <= r < FrameCount
    ensures !isWalking ==> r == 0
    ensures isWalking ==> r == if frame == FrameCount - 1 then 0 else frame + 1
  {
    if !isWalking then 0 else (frame + 1) % FrameCount
  }

  /** Walking cycles through the frames: five ticks bring the frame back. */
  lemma {:induction false} FramesCycle(frame: int, n: nat)
    requires 0 <= frame < FrameCount
    ensures Frames(frame, n) == (frame + n) % FrameCount
  {
    if n > 0 {
      FramesCycle(frame, n - 1);
    }
  }

  /** The frame after `n` ticks of walking. */
  function Frames(frame: int, n: nat): (r: int)
    requires 0 <= frame < FrameCount
    ensures 0 <= r < FrameCount
  {
    if n == 0 then frame else NextFrame(true, Frames(frame, n - 1))
  }

  /**
   * One axis of the position timer: move by `v`, then, if past the `low`
   * wall, stand on it and head up the axis; otherwise, if past the `high`
   * wall, stand on it and head down the axis.
   */
  function Bounce(p: real, v: real, low: real, high: real): (r: (real, real))
    ensures Abs(r.1) == Abs(v)
    ensures low <= p + v <= high ==> r == (p + v, v)
    ensures p + v < low ==> r == (low, Abs(v))
    ensures low <= p + v && p + v > high ==> r == (high, -Abs(v))
    ensures low <= high ==> low <= r.0 <= high
  {
    var moved := p + v;
    if moved < low then (low, Abs(v))
    else if moved > high then (high, -Abs(v))
    else (moved, v)
  }

  /** A screen on which the play area is not empty: at least 100 points wide and 280 high. */
  predicate RoomyScreen(width: real, height: real) {
    MarginLeft <= width - MarginRight && MarginTop <= height - MarginBottom
  }

  class AmongUsBody {
    var isWalking: bool
    var isFlip: bool
    var currentFrame: int
    var x: real
    var y: real
    var dx: real
    var dy: real
    var width: real
    var height: real
    /** Whether the walking, frame and position timers are scheduled. */
    var walkingTimer: bool
    var frameTimer: bool
    var positionTimer: bool

    /** The frame is always one of the animation's frames. */
    ghost predicate Valid()
      reads this
    {
      0 <= currentFrame < FrameCount
    }

    /** The character stands inside the play area. */
    ghost predicate Inside()
      reads this
    {
      MarginLeft <= x <= width - MarginRight && MarginTop <= y <= height - MarginBottom
    }

    /** The initial state: standing, unflipped, at the origin, heading (1, 1), no timers. */
    constructor()
      ensures !isWalking && !isFlip && currentFrame == 0
      ensures x == 0.0 && y == 0.0 && dx == 1.0 && dy == 1.0 && width == 0.0 && height == 0.0
      ensures !walkingTimer && !frameTimer && !positionTimer
      ensures Valid()
    {
      isWalking := false;
      isFlip := false;
      currentFrame := 0;
      x, y := 0.0, 0.0;
      dx, dy := 1.0, 1.0;
      width, height := 0.0, 0.0;
      walkingTimer, frameTimer, positionTimer := false, false, false;
    }

    /** `onAppear`: records the screen size and centres the character. */
    method Appear(w: real, h: real)
      modifies this
      ensures width == w && height == h && x == w / 2.0 && y == h / 2.0
      ensures isWalking == old(isWalking) && isFlip == old(isFlip) && currentFrame == old(currentFrame)
      ensures dx == old(dx) && dy == old(dy)
      ensures walkingTimer == old(walkingTimer) && frameTimer == old(frameTimer) && positionTimer == old(positionTimer)
    {
      width, height := w, h;
      x, y := w / 2.0, h / 2.0;
    }

    /** One firing of the frame timer. */
    method FrameTick()
      requires Valid()
      modifies this`currentFrame
      ensures currentFrame == NextFrame(isWalking, old(currentFrame))
      ensures Valid()
    {
      if !isWalking {
        currentFrame := 0;
        return;
      }
      currentFrame := (currentFrame + 1) % FrameCount;
    }

    /** One firing of the position timer: nothing when standing, otherwise a move and a bounce on each axis. */
    method PositionTick()
      modifies this`x, this`y, this`dx, this`dy
      ensures !old(isWalking) ==> x == old(x) && y == old(y) && dx == old(dx) && dy == old(dy)
      ensures old(isWalking) ==> (x, dx) == Bounce(old(x), old(dx), MarginLeft, width - MarginRight)
      ensures old(isWalking) ==> (y, dy) == Bounce(old(y), old(dy), MarginTop, height - MarginBottom)
      ensures RoomyScreen(width, height) && old(isWalking) ==> Inside()
      ensures Abs(dx) == Abs(old(dx)) && Abs(dy) == Abs(old(dy))
    {
      if !isWalking {
        return;
      }
      x := x + dx;
      y := y + dy;
      if x < MarginLeft {
        x := MarginLeft;
        dx := Abs(dx);
      } else if x > width - MarginRight {
        x := width - MarginRight;
        dx := -Abs(dx);
      }
      if y < MarginTop {
        y := MarginTop;
        dy := Abs(dy);
      } else if y > height - MarginBottom {
        y := height - MarginBottom;
        dy := -Abs(dy);
      }
    }

    /** `stopWalking`: cancels the three timers, stops and shows the first frame. */
    method StopWalking()
      modifies this`walkingTimer, this`frameTimer, this`positionTimer, this`isWalking, this`currentFrame
      ensures !walkingTimer && !frameTimer && !positionTimer
      ensures !isWalking && currentFrame == 0 && Valid()
    {
      walkingTimer, frameTimer, positionTimer := false, false, false;
      isWalking := false;
      currentFrame := 0;
    }

    /** `walking`: stops, takes the new heading, and schedules the three timers. */
    method Walking(heading: (real, real))
      modifies this
      ensures walkingTimer && frameTimer && positionTimer
      ensures !isWalking && currentFrame == 0 && Valid()
      ensures (dx, dy) == heading
      ensures x == old(x) && y == old(y) && isFlip == old(isFlip) && width == old(width) && height == old(height)
    {
      StopWalking();
      dx, dy := heading.0, heading.1;
      walkingTimer, frameTimer, positionTimer := true, true, true;
    }

    /** One firing of the walking timer: a new heading, and walking starts. */
    method WalkingTick(heading: (real, real))
      modifies this`dx, this`dy, this`isWalking
      ensures (dx, dy) == heading && isWalking
    {
      dx, dy := heading.0, heading.1;
      isWalking := true;
    }

    /** Three seconds after a walking tick the character stops. */
    method WalkPause()
      modifies this`isWalking
      ensures !isWalking
    {
      isWalking := false;
    }

    /** `toggleIsWalking`: toggles the flag, then restarts through `walking`, which stops the character again. */
    method ToggleIsWalking(heading: (real, real))
      modifies this
      ensures !isWalking && currentFrame == 0 && Valid()
      ensures walkingTimer && frameTimer && positionTimer && (dx, dy) == heading
      ensures x == old(x) && y == old(y) && isFlip == old(isFlip) && width == old(width) && height == old(height)
    {
      isWalking := !isWalking;
      Walking(heading);
    }

    /** `toggleIsFlip`: mirrors the character. */
    method ToggleIsFlip()
      modifies this`isFlip
      ensures isFlip == !old(isFlip)
    {
      isFlip := !isFlip;
    }
  }
}
