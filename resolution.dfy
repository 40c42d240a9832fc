/** The arithmetic of `Entity.move` and `Entity.collision`
    (code/entity.py): rounding the float position to a pixel, and the
    axis-separated push-back of the hitbox out of the obstacles it overlaps.
    The functions here specify the methods of `Entities.Entity`; the lemmas
    say what one collision pass guarantees. */
module Resolution {
  import opened Rects

  /** Python's `round` on a number: the nearest integer, and of two equally
      near integers the even one. */
  function Round(r: real): (n: int)
    ensures r - 0.5 <= n as real <= r + 0.5
    ensures (n as real == r - 0.5 || n as real == r + 0.5) ==> n % 2 == 0
  {
    var f := r.Floor;
    var frac := r - f as real;
    if frac < 0.5 then f
    else if frac > 0.5 then f + 1
    else if f % 2 == 0 then f else f + 1
  }

  /** Round-half-to-even is the only rounding with those two properties, so
      `Round` is Python's `round` whatever way it is computed. */
  lemma RoundUnique(r: real, n: int)
    requires r - 0.5 <= n as real <= r + 0.5
    requires (n as real == r - 0.5 || n as real == r + 0.5) ==> n % 2 == 0
    ensures n == Round(r)
  {
  }

  /** What `collision` does to the hitbox for an obstacle it overlaps:
      moving forward (`dir > 0`: right or down) puts the hitbox's `right` /
      `bottom` on the obstacle's `left` / `top`; moving backward puts its
      `left` / `top` on the obstacle's `right` / `bottom`; with no motion on
      the axis the hitbox stays where it is. */
  function Clamp(hitbox: Rect, axis: Axis, dir: real, obstacle: Rect): Rect
  {
    var pushed := if dir > 0.0 then hitbox.WithEnd(axis, obstacle.Start(axis)) else hitbox;
    if dir < 0.0 then pushed.WithStart(axis, obstacle.End(axis)) else pushed
  }

  /** One iteration of the loop over the obstacles: clamp only if the
      obstacle's hitbox collides with the current hitbox. */
  function Step(hitbox: Rect, axis: Axis, dir: real, obstacle: Rect): Rect
  {
    if obstacle.Collides(hitbox) then Clamp(hitbox, axis, dir, obstacle) else hitbox
  }

  /** The hitbox after the loop has visited `obstacles` in order; each
      obstacle is tested against the hitbox as the earlier ones left it. */
  function Resolve(hitbox: Rect, axis: Axis, dir: real, obstacles: seq<Rect>): Rect
    decreases |obstacles|
  {
    if obstacles == [] then hitbox
    else
      var n := |obstacles| - 1;
      Step(Resolve(hitbox, axis, dir, obstacles[..n]), axis, dir, obstacles[n])
  }

  /** Some obstacle collided with the hitbox when the loop reached it, so
      that `rect` and `pos` were snapped on this axis. */
  predicate Handled(hitbox: Rect, axis: Axis, dir: real, obstacles: seq<Rect>)
    decreases |obstacles|
  {
    if obstacles == [] then false
    else
      var n := |obstacles| - 1;
      Handled(hitbox, axis, dir, obstacles[..n]) ||
      obstacles[n].Collides(Resolve(hitbox, axis, dir, obstacles[..n]))
  }

  /** `Handled` is exactly "some obstacle collided with the hitbox at its
      turn". */
  lemma {:induction false} HandledIffSomeCollided(hitbox: Rect, axis: Axis, dir: real, obstacles: seq<Rect>)
    ensures Handled(hitbox, axis, dir, obstacles) <==>
            exists k :: 0 <= k < |obstacles| && obstacles[k].Collides(Resolve(hitbox, axis, dir, obstacles[..k]))
    decreases |obstacles|
  {
    if obstacles != [] {
      var n := |obstacles| - 1;
      var prefix := obstacles[..n];
      HandledIffSomeCollided(hitbox, axis, dir, prefix);
      forall k | 0 <= k < n
        ensures prefix[k] == obstacles[k] && prefix[..k] == obstacles[..k]
      {
      }
      if Handled(hitbox, axis, dir, obstacles) {
        if !Handled(hitbox, axis, dir, prefix) {
          assert obstacles[n].Collides(Resolve(hitbox, axis, dir, obstacles[..n]));
        }
      }
    }
  }

  /** A pass in which no obstacle collided leaves the hitbox where it was. */
  lemma {:induction false} ResolveUnhandled(hitbox: Rect, axis: Axis, dir: real, obstacles: seq<Rect>)
    requires !Handled(hitbox, axis, dir, obstacles)
    ensures Resolve(hitbox, axis, dir, obstacles) == hitbox
    decreases |obstacles|
  {
    if obstacles != [] {
      ResolveUnhandled(hitbox, axis, dir, obstacles[..|obstacles| - 1]);
    }
  }

  /** A pass changes neither the size of the hitbox nor its position on the
      other axis. */
  lemma {:induction false} ResolveKeepsShape(hitbox: Rect, axis: Axis, dir: real, obstacles: seq<Rect>)
    ensures Resolve(hitbox, axis, dir, obstacles).w == hitbox.w
    ensures Resolve(hitbox, axis, dir, obstacles).h == hitbox.h
    ensures Resolve(hitbox, axis, dir, obstacles).Start(Other(axis)) == hitbox.Start(Other(axis))
    decreases |obstacles|
  {
    if obstacles != [] {
      ResolveKeepsShape(hitbox, axis, dir, obstacles[..|obstacles| - 1]);
    }
  }

  /** With no motion on the axis the pass leaves the hitbox where it is,
      however many obstacles it overlaps. */
  lemma {:induction false} ResolveStandingStill(hitbox: Rect, axis: Axis, obstacles: seq<Rect>)
    ensures Resolve(hitbox, axis, 0.0, obstacles) == hitbox
    decreases |obstacles|
  {
    if obstacles != [] {
      ResolveStandingStill(hitbox, axis, obstacles[..|obstacles| - 1]);
    }
  }

  /** The pass only ever pushes the hitbox back against the motion: moving
      forward its start never increases, moving backward it never
      decreases. */
  lemma {:induction false} ResolveNeverAdvances(hitbox: Rect, axis: Axis, dir: real, obstacles: seq<Rect>)
    ensures dir > 0.0 ==> Resolve(hitbox, axis, dir, obstacles).Start(axis) <= hitbox.Start(axis)
    ensures dir < 0.0 ==> Resolve(hitbox, axis, dir, obstacles).Start(axis) >= hitbox.Start(axis)
    decreases |obstacles|
  {
    if obstacles != [] {
      var n := |obstacles| - 1;
      var before := Resolve(hitbox, axis, dir, obstacles[..n]);
      ResolveNeverAdvances(hitbox, axis, dir, obstacles[..n]);
      StepNeverAdvances(before, axis, dir, obstacles[n]);
    }
  }

  /** One step of the pass pushes back, never forward. */
  lemma StepNeverAdvances(hitbox: Rect, axis: Axis, dir: real, obstacle: Rect)
    ensures dir > 0.0 ==> Step(hitbox, axis, dir, obstacle).Start(axis) <= hitbox.Start(axis)
    ensures dir < 0.0 ==> Step(hitbox, axis, dir, obstacle).Start(axis) >= hitbox.Start(axis)
  {
    if obstacle.Collides(hitbox) {
      CollidesOnAxis(obstacle, hitbox, axis);
    }
  }

  /** An obstacle that collided with the hitbox when the loop reached it is
      clear of the hitbox when the pass ends: moving forward the hitbox's
      `right` / `bottom` is at or before the obstacle's `left` / `top`, moving
      backward its `left` / `top` is at or after the obstacle's `right` /
      `bottom`. Obstacles pushed back against later can only move further
      away. */
  lemma {:induction false} ResolveClearsHandled(hitbox: Rect, axis: Axis, dir: real, obstacles: seq<Rect>, k: nat)
    requires dir != 0.0
    requires k < |obstacles|
    requires obstacles[k].Collides(Resolve(hitbox, axis, dir, obstacles[..k]))
    ensures dir > 0.0 ==> Resolve(hitbox, axis, dir, obstacles).End(axis) <= obstacles[k].Start(axis)
    ensures dir < 0.0 ==> Resolve(hitbox, axis, dir, obstacles).Start(axis) >= obstacles[k].End(axis)
    ensures !obstacles[k].Collides(Resolve(hitbox, axis, dir, obstacles))
    decreases |obstacles|
  {
    var n := |obstacles| - 1;
    var final := Resolve(hitbox, axis, dir, obstacles);
    var before := Resolve(hitbox, axis, dir, obstacles[..n]);
    if k < n {
      var prefix := obstacles[..n];
      assert prefix[k] == obstacles[k] && prefix[..k] == obstacles[..k];
      ResolveClearsHandled(hitbox, axis, dir, prefix, k);
      StepNeverAdvances(before, axis, dir, obstacles[n]);
      ResolveKeepsShape(hitbox, axis, dir, prefix);
      ResolveKeepsShape(hitbox, axis, dir, obstacles);
    } else {
      assert obstacles[..k] == obstacles[..n];
    }
    ApartOnAxis(obstacles[k], final, axis);
  }

  /** The obstacle handled last decides where the hitbox ends: flush against
      it, `right == left` (or `bottom == top`) moving forward and
      `left == right` (or `top == bottom`) moving backward. */
  lemma {:induction false} ResolveFlushWithLastHandled(hitbox: Rect, axis: Axis, dir: real, obstacles: seq<Rect>, k: nat)
    requires k < |obstacles|
    requires obstacles[k].Collides(Resolve(hitbox, axis, dir, obstacles[..k]))
    requires forall j :: k < j < |obstacles| ==> !obstacles[j].Collides(Resolve(hitbox, axis, dir, obstacles[..j]))
    ensures dir > 0.0 ==> Resolve(hitbox, axis, dir, obstacles).End(axis) == obstacles[k].Start(axis)
    ensures dir < 0.0 ==> Resolve(hitbox, axis, dir, obstacles).Start(axis) == obstacles[k].End(axis)
    decreases |obstacles|
  {
    var n := |obstacles| - 1;
    if k < n {
      var prefix := obstacles[..n];
      assert prefix[k] == obstacles[k] && prefix[..k] == obstacles[..k];
      forall j | k < j < |prefix|
        ensures !prefix[j].Collides(Resolve(hitbox, axis, dir, prefix[..j]))
      {
        assert prefix[j] == obstacles[j] && prefix[..j] == obstacles[..j];
      }
      ResolveFlushWithLastHandled(hitbox, axis, dir, prefix, k);
      assert !obstacles[n].Collides(Resolve(hitbox, axis, dir, obstacles[..n]));
    } else {
      assert obstacles[..k] == obstacles[..n];
    }
  }

  /** The pass clears only the obstacles it handled. One it passed over
      while the hitbox was clear of it can be overlapped at the end, once a
      later obstacle has pushed the hitbox back onto it: here the hitbox
      moves right into the second obstacle and is pushed back into the
      first. */
  lemma SkippedObstacleCanBeOverlapped()
    ensures var hitbox := Rect(10, 0, 10, 10);
            var obstacles := [Rect(0, 0, 5, 10), Rect(12, 0, 10, 10)];
            !obstacles[0].Collides(hitbox) &&
            Resolve(hitbox, Horizontal, 1.0, obstacles) == Rect(2, 0, 10, 10) &&
            obstacles[0].Collides(Resolve(hitbox, Horizontal, 1.0, obstacles))
  {
    var hitbox := Rect(10, 0, 10, 10);
    var obstacles := [Rect(0, 0, 5, 10), Rect(12, 0, 10, 10)];
    assert obstacles[..1] == [Rect(0, 0, 5, 10)] && obstacles[..1][..0] == [];
  }
}
