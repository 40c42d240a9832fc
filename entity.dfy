/** `Entity` (code/entity.py): the state every moving, damageable sprite of
    the game shares, and the methods that change it in place. */
module Entities {
  import opened Rects
  import opened Resolution
  import opened Health

  class Entity {
    /** The sprite's identity, the argument the pixel-mask test receives. */
    const id: nat

    /** Hitboxes of the sprites in the obstacle group (`collision_sprites`),
        in the group's order. */
    const collisionSprites: seq<Rect>

    var frameIndex: int
    var status: string

    /** `rect` (where the image is drawn) and `hitbox` (what collides). */
    var rect: Rect
    var hitbox: Rect

    /** `pos`, the exact position; the rectangles hold it rounded. */
    var posX: real
    var posY: real

    /** `direction`; only the sign of each component is read here. */
    var dirX: real
    var dirY: real
    var speed: int

    var attacking: bool

    var health: int
    var isVulnerable: bool
    var hitTime: Option<int>

    /** Still a member of its sprite groups: `kill()` removes a sprite from
        every group at once. */
    var alive: bool

    ghost predicate Valid()
      reads this
    {
      rect.Positive() && hitbox.Positive() && Coherent(Vitality())
    }

    function Vitality(): Vitals
      reads this
    {
      Vitals(health, isVulnerable, hitTime)
    }

    /** `pos` on one axis. */
    function Pos(axis: Axis): real
      reads this
    {
      match axis
      case Horizontal => posX
      case Vertical => posY
    }

    /** `direction` on one axis. */
    function Dir(axis: Axis): real
      reads this
    {
      match axis
      case Horizontal => dirX
      case Vertical => dirY
    }

    /** `__init__`: the image rectangle (`width` by `height`) centred on the
        spawn point, the hitbox shrunk from it by `inflate(-widthCut,
        -heightCut)` (the whole pixels pygame makes of `0.6 * width` and
        `height / 2`), standing still, at full health and vulnerable. */
    constructor (id: nat, cx: int, cy: int, width: int, height: int,
                 widthCut: int, heightCut: int, collisionSprites: seq<Rect>)
      requires width > 0 && height > 0
      requires 0 <= widthCut < width && 0 <= heightCut < height
      ensures Valid() && alive
      ensures this.id == id && this.collisionSprites == collisionSprites
      ensures frameIndex == 0 && status == "down" && speed == 200 && !attacking
      ensures Vitality() == Initial()
      ensures rect.w == width && rect.h == height
      ensures rect.Center(Horizontal) == cx && rect.Center(Vertical) == cy
      ensures hitbox == rect.Inflate(-widthCut, -heightCut)
      ensures posX == cx as real && posY == cy as real
      ensures dirX == 0.0 && dirY == 0.0
    {
      this.id := id;
      this.collisionSprites := collisionSprites;
      frameIndex := 0;
      status := "down";
      var r := Rect(0, 0, width, height).WithCenter(Horizontal, cx).WithCenter(Vertical, cy);
      rect := r;
      posX, posY := cx as real, cy as real;
      dirX, dirY := 0.0, 0.0;
      speed := 200;
      hitbox := r.Inflate(-widthCut, -heightCut);
      attacking := false;
      health := StartHealth;
      isVulnerable := true;
      hitTime := None;
      alive := true;
    }

    /** `damage()`, at clock reading `now`. The hit sound is left out. */
    method Damage(now: int)
      modifies this`health, this`isVulnerable, this`hitTime
      ensures Vitality() == Health.Damage(old(Vitality()), now)
      ensures health <= old(health)
      ensures old(isVulnerable) ==> health == old(health) - 1 && !isVulnerable && hitTime == Some(now)
      ensures !old(isVulnerable) ==> health == old(health) && hitTime == old(hitTime)
    {
      if isVulnerable {
        health := health - 1;
        isVulnerable := false;
        hitTime := Some(now);
      }
    }

    /** `check_dealth()`: leaves every group once health is zero or below. */
    method CheckDeath()
      modifies this`alive
      ensures alive == (old(alive) && !Dead(Vitality()))
    {
      if health <= 0 {
        alive := false;
      }
    }

    /** `vulnerability_timer()`, at clock reading `now`. */
    method VulnerabilityTimer(now: int)
      requires Valid()
      modifies this`isVulnerable
      ensures Valid()
      ensures Vitality() == Timer(old(Vitality()), now)
      ensures isVulnerable <==> old(isVulnerable) || now - hitTime.value > WindowMs
    {
      if !isVulnerable {
        var currentTime := now;
        if currentTime - hitTime.value > WindowMs {
          isVulnerable := true;
        }
      }
    }

    /** `collision(axis)`: every obstacle whose hitbox collides with the
        hitbox pushes it back against the motion on `axis`; after each such
        push `rect` and `pos` are re-centred on the hitbox on that axis. */
    method Collision(axis: Axis)
      requires Valid()
      modifies this`hitbox, this`rect, this`posX, this`posY
      ensures Valid()
      ensures hitbox == Resolve(old(hitbox), axis, Dir(axis), collisionSprites)
      ensures rect == if Handled(old(hitbox), axis, Dir(axis), collisionSprites)
                      then old(rect).WithCenter(axis, hitbox.Center(axis)) else old(rect)
      ensures Pos(axis) == if Handled(old(hitbox), axis, Dir(axis), collisionSprites)
                           then hitbox.Center(axis) as real else old(Pos(axis))
      ensures !Handled(old(hitbox), axis, Dir(axis), collisionSprites) ==> hitbox == old(hitbox)
      ensures hitbox.w == old(hitbox.w) && hitbox.h == old(hitbox.h)
      ensures hitbox.Start(Other(axis)) == old(hitbox.Start(Other(axis)))
      ensures rect.w == old(rect.w) && rect.h == old(rect.h)
      ensures rect.Start(Other(axis)) == old(rect.Start(Other(axis)))
      ensures Pos(Other(axis)) == old(Pos(Other(axis)))
    {
      ghost var handled := false;
      for i := 0 to |collisionSprites|
        invariant hitbox == Resolve(old(hitbox), axis, Dir(axis), collisionSprites[..i])
        invariant handled == Handled(old(hitbox), axis, Dir(axis), collisionSprites[..i])
        invariant rect == if handled then old(rect).WithCenter(axis, hitbox.Center(axis)) else old(rect)
        invariant Pos(axis) == if handled then hitbox.Center(axis) as real else old(Pos(axis))
        invariant Pos(Other(axis)) == old(Pos(Other(axis)))
        invariant hitbox.Positive() && rect.Positive()
      {
        var sprite := collisionSprites[i];
        assert collisionSprites[..i + 1][..i] == collisionSprites[..i];
        ResolveKeepsShape(old(hitbox), axis, Dir(axis), collisionSprites[..i + 1]);
        if sprite.Collides(hitbox) {
          if axis == Horizontal {
            if dirX > 0.0 {
              hitbox := hitbox.WithEnd(Horizontal, sprite.Start(Horizontal));
            }
            if dirX < 0.0 {
              hitbox := hitbox.WithStart(Horizontal, sprite.End(Horizontal));
            }
            rect := rect.WithCenter(Horizontal, hitbox.Center(Horizontal));
            posX := hitbox.Center(Horizontal) as real;
          } else {
            if dirY > 0.0 {
              hitbox := hitbox.WithEnd(Vertical, sprite.Start(Vertical));
            }
            if dirY < 0.0 {
              hitbox := hitbox.WithStart(Vertical, sprite.End(Vertical));
            }
            rect := rect.WithCenter(Vertical, hitbox.Center(Vertical));
            posY := hitbox.Center(Vertical) as real;
          }
          handled := true;
        }
      }
      assert collisionSprites[..|collisionSprites|] == collisionSprites;
      ResolveKeepsShape(old(hitbox), axis, Dir(axis), collisionSprites);
      if !handled {
        ResolveUnhandled(old(hitbox), axis, Dir(axis), collisionSprites);
      }
    }

    /** `move(dt)` from the point where the displacement is known: `stepX`
        and `stepY` are `direction * speed * dt` after normalisation. Each
        axis in turn: advance `pos`, centre the hitbox on the rounded
        position, centre `rect` on the hitbox, resolve collisions. */
    method Move(stepX: real, stepY: real)
      requires Valid()
      modifies this`hitbox, this`rect, this`posX, this`posY
      ensures Valid()
      ensures var afterX := Resolve(old(hitbox).WithCenter(Horizontal, Round(old(posX) + stepX)),
                                    Horizontal, dirX, collisionSprites);
              hitbox == Resolve(afterX.WithCenter(Vertical, Round(old(posY) + stepY)),
                                Vertical, dirY, collisionSprites)
      ensures hitbox.w == old(hitbox.w) && hitbox.h == old(hitbox.h)
      ensures rect.w == old(rect.w) && rect.h == old(rect.h)
      ensures rect.Center(Horizontal) == hitbox.Center(Horizontal)
      ensures rect.Center(Vertical) == hitbox.Center(Vertical)
      ensures var startX := old(hitbox).WithCenter(Horizontal, Round(old(posX) + stepX));
              posX == if Handled(startX, Horizontal, dirX, collisionSprites)
                      then hitbox.Center(Horizontal) as real else old(posX) + stepX
      ensures var afterX := Resolve(old(hitbox).WithCenter(Horizontal, Round(old(posX) + stepX)),
                                    Horizontal, dirX, collisionSprites);
              var startY := afterX.WithCenter(Vertical, Round(old(posY) + stepY));
              posY == if Handled(startY, Vertical, dirY, collisionSprites)
                      then hitbox.Center(Vertical) as real else old(posY) + stepY
    {
      posX := posX + stepX;
      hitbox := hitbox.WithCenter(Horizontal, Round(posX));
      rect := rect.WithCenter(Horizontal, hitbox.Center(Horizontal));
      Collision(Horizontal);
      ghost var afterX := hitbox;

      posY := posY + stepY;
      hitbox := hitbox.WithCenter(Vertical, Round(posY));
      rect := rect.WithCenter(Vertical, hitbox.Center(Vertical));
      Collision(Vertical);
    }
  }
}
