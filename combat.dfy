/** `Game.bullet_collision` (code/main.py): once per frame, bullets that hit
    an obstacle disappear; then every remaining bullet that hits one or more
    enemies disappears and damages each of them; then the bullets that hit
    the player disappear and, if there were any, the player is damaged.

    pygame's `collide_mask` (overlap of the sprites' pixel masks at their
    current positions) is the parameter `collide(left, right)`, applied to
    sprite identities in the argument order the source uses:
    `(obstacle, bullet)`, `(bullet, enemy)` and `(player, bullet)`. Nothing
    moves during the call, so it is the same relation throughout. */
module Combat {
  import opened Health
  import opened Entities

  /** `spritecollide(sprite, group, ...)`: the members of `group` that
      `sprite` collides with. */
  function SpriteCollide(sprite: nat, group: set<nat>, collide: (nat, nat) -> bool): set<nat>
  {
    set b | b in group && collide(sprite, b)
  }

  /** The bullet group after the loop over the obstacle group has visited
      `obstacles` in order, each one killing the bullets it collides with. */
  function AfterObstacles(bullets: set<nat>, obstacles: seq<nat>, collide: (nat, nat) -> bool): set<nat>
    decreases |obstacles|
  {
    if obstacles == [] then bullets
    else
      var n := |obstacles| - 1;
      var before := AfterObstacles(bullets, obstacles[..n], collide);
      before - SpriteCollide(obstacles[n], before, collide)
  }

  /** A bullet survives the obstacle stage exactly when no obstacle collides
      with it: the order of the obstacles does not matter. */
  lemma {:induction false} AfterObstaclesSurvivors(bullets: set<nat>, obstacles: seq<nat>,
                                                   collide: (nat, nat) -> bool, b: nat)
    ensures b in AfterObstacles(bullets, obstacles, collide) <==>
            b in bullets && forall k :: 0 <= k < |obstacles| ==> !collide(obstacles[k], b)
    decreases |obstacles|
  {
    if obstacles != [] {
      var n := |obstacles| - 1;
      AfterObstaclesSurvivors(bullets, obstacles[..n], collide, b);
      assert forall k :: 0 <= k < n ==> obstacles[..n][k] == obstacles[k];
    }
  }

  /** The bullet collides with some enemy still in the enemy group. */
  predicate HitsEnemy(bullet: nat, liveEnemies: set<nat>, collide: (nat, nat) -> bool)
  {
    exists e :: e in liveEnemies && collide(bullet, e)
  }

  /** The bullet group after the enemy stage: the bullets that hit an enemy
      are gone. */
  function AfterEnemies(bullets: set<nat>, liveEnemies: set<nat>, collide: (nat, nat) -> bool): set<nat>
  {
    set b | b in bullets && !HitsEnemy(b, liveEnemies, collide)
  }

  /** Some bullet of `bullets` hits enemy `enemy` (which must be in the group). */
  predicate EnemyStruck(bullets: set<nat>, enemy: nat, collide: (nat, nat) -> bool)
  {
    exists b :: b in bullets && collide(b, enemy)
  }

  /** The bullet group after the player stage. */
  function AfterPlayer(bullets: set<nat>, player: nat, collide: (nat, nat) -> bool): set<nat>
  {
    bullets - SpriteCollide(player, bullets, collide)
  }

  /** The stages run in order, so a bullet that hits an obstacle is gone
      before it can hit anything else: every enemy and player hit of the
      call comes from a bullet that no obstacle collides with. */
  lemma ObstaclesShieldFirst(bullets: set<nat>, obstacles: seq<nat>, liveEnemies: set<nat>,
                             player: nat, collide: (nat, nat) -> bool, enemy: nat)
    ensures var b1 := AfterObstacles(bullets, obstacles, collide);
            EnemyStruck(b1, enemy, collide) ==>
              exists b :: b in bullets && collide(b, enemy) &&
                          forall k :: 0 <= k < |obstacles| ==> !collide(obstacles[k], b)
    ensures var b2 := AfterEnemies(AfterObstacles(bullets, obstacles, collide), liveEnemies, collide);
            SpriteCollide(player, b2, collide) != {} ==>
              exists b :: b in bullets && collide(player, b) && !HitsEnemy(b, liveEnemies, collide) &&
                          forall k :: 0 <= k < |obstacles| ==> !collide(obstacles[k], b)
  {
    var b1 := AfterObstacles(bullets, obstacles, collide);
    if EnemyStruck(b1, enemy, collide) {
      var b :| b in b1 && collide(b, enemy);
      AfterObstaclesSurvivors(bullets, obstacles, collide, b);
    }
    var b2 := AfterEnemies(b1, liveEnemies, collide);
    if SpriteCollide(player, b2, collide) != {} {
      var b :| b in SpriteCollide(player, b2, collide);
      AfterObstaclesSurvivors(bullets, obstacles, collide, b);
    }
  }

  /** What survives the whole call: exactly the bullets that hit no
      obstacle, no enemy in the group and not the player. */
  lemma {:induction false} Survivors(bullets: set<nat>, obstacles: seq<nat>, liveEnemies: set<nat>,
                                     player: nat, collide: (nat, nat) -> bool, b: nat)
    ensures b in AfterPlayer(AfterEnemies(AfterObstacles(bullets, obstacles, collide), liveEnemies, collide), player, collide)
            <==> b in bullets && (forall k :: 0 <= k < |obstacles| ==> !collide(obstacles[k], b)) &&
                 !HitsEnemy(b, liveEnemies, collide) && !collide(player, b)
  {
    AfterObstaclesSurvivors(bullets, obstacles, collide, b);
  }

  class Game {
    /** The obstacle group, by identity, in group order. */
    const obstacles: seq<nat>
    /** Every enemy spawned; the enemy group holds those still alive. */
    const enemies: set<Entity>
    const player: Entity
    /** The bullet group, by identity. */
    var bullets: set<nat>

    /** The player is not an enemy, and no two sprites share an identity,
        so a sprite is told apart from the others by its `id`. */
    ghost predicate Valid()
      reads this, enemies, player
    {
      player !in enemies &&
      (forall e :: e in enemies ==> e.id != player.id) &&
      (forall e, f :: e in enemies && f in enemies && e.id == f.id ==> e == f)
    }

    /** The identities of the enemy group's members. */
    function LiveEnemies(): set<nat>
      reads this, enemies
    {
      set e | e in enemies && e.alive :: e.id
    }

    /** The groups of `__init__` once `setup` has filled them; the bullet
        group starts empty. */
    constructor (obstacles: seq<nat>, enemies: set<Entity>, player: Entity)
      requires player !in enemies
      requires forall e :: e in enemies ==> e.id != player.id
      requires forall e, f :: e in enemies && f in enemies && e.id == f.id ==> e == f
      ensures Valid()
      ensures this.obstacles == obstacles && this.enemies == enemies && this.player == player
      ensures bullets == {}
    {
      this.obstacles := obstacles;
      this.enemies := enemies;
      this.player := player;
      bullets := {};
    }

    /** `bullet_collision()`, at clock reading `now`: the three stages in
        their fixed order. */
    method BulletCollision(collide: (nat, nat) -> bool, now: int)
      requires Valid()
      modifies this`bullets, enemies`health, enemies`isVulnerable, enemies`hitTime
      modifies player`health, player`isVulnerable, player`hitTime
      ensures Valid()
      ensures var b1 := AfterObstacles(old(bullets), obstacles, collide);
              var b2 := AfterEnemies(b1, old(LiveEnemies()), collide);
              bullets == AfterPlayer(b2, player.id, collide)
      ensures forall e :: e in enemies ==> e.alive == old(e.alive)
      ensures forall e :: e in enemies ==>
                e.Vitality() == if e.alive && EnemyStruck(AfterObstacles(old(bullets), obstacles, collide), e.id, collide)
                                then Damage(old(e.Vitality()), now) else old(e.Vitality())
      ensures var b1 := AfterObstacles(old(bullets), obstacles, collide);
              var b2 := AfterEnemies(b1, old(LiveEnemies()), collide);
              player.Vitality() == if SpriteCollide(player.id, b2, collide) != {}
                                   then Damage(old(player.Vitality()), now) else old(player.Vitality())
      ensures player.alive == old(player.alive)
      ensures forall e :: e in enemies && old(e.Valid()) ==> e.Valid()
      ensures old(player.Valid()) ==> player.Valid()
    {
      ObstacleStage(collide);
      EnemyStage(collide, now);
      PlayerStage(collide, now);
    }

    /** Bullets against obstacles: for each obstacle in turn,
        `spritecollide(obstacle, bullets, True, collide_mask)` kills the
        bullets it collides with. */
    method ObstacleStage(collide: (nat, nat) -> bool)
      modifies this`bullets
      ensures bullets == AfterObstacles(old(bullets), obstacles, collide)
    {
      for i := 0 to |obstacles|
        invariant bullets == AfterObstacles(old(bullets), obstacles[..i], collide)
      {
        assert obstacles[..i + 1][..i] == obstacles[..i];
        bullets := bullets - SpriteCollide(obstacles[i], bullets, collide);
      }
      assert obstacles[..|obstacles|] == obstacles;
    }

    /** Bullets against enemies: each bullet of the group as it stands when
        the stage starts that collides with members of the enemy group is
        killed, and `damage()` is called on every one of those members. */
    method EnemyStage(collide: (nat, nat) -> bool, now: int)
      requires Valid()
      modifies this`bullets, enemies`health, enemies`isVulnerable, enemies`hitTime
      ensures bullets == AfterEnemies(old(bullets), old(LiveEnemies()), collide)
      ensures forall e :: e in enemies ==> e.alive == old(e.alive)
      ensures forall e :: e in enemies ==>
                e.Vitality() == if e.alive && EnemyStruck(old(bullets), e.id, collide)
                                then Damage(old(e.Vitality()), now) else old(e.Vitality())
    {
      ghost var live := LiveEnemies();
      var snapshot := bullets;
      var pending := snapshot;
      while pending != {}
        decreases pending
        invariant pending <= snapshot
        invariant bullets == AfterEnemies(snapshot - pending, live, collide) + pending
        invariant forall e :: e in enemies ==> e.alive == old(e.alive)
        invariant live == LiveEnemies()
        invariant forall e :: e in enemies ==>
                    e.Vitality() == if e.alive && EnemyStruck(snapshot - pending, e.id, collide)
                                    then Damage(old(e.Vitality()), now) else old(e.Vitality())
      {
        var bullet :| bullet in pending;
        var sprites := set e | e in enemies && e.alive && collide(bullet, e.id);
        assert sprites != {} <==> HitsEnemy(bullet, live, collide) by {
          if HitsEnemy(bullet, live, collide) {
            var id :| id in live && collide(bullet, id);
            var e :| e in enemies && e.alive && e.id == id;
            assert e in sprites;
          }
          if sprites != {} {
            var e :| e in sprites;
            assert e.id in live;
          }
        }
        ghost var done := snapshot - pending;
        assert snapshot - (pending - {bullet}) == done + {bullet};
        if sprites != {} {
          bullets := bullets - {bullet};
          DamageEach(sprites, now);
          assert AfterEnemies(done + {bullet}, live, collide) == AfterEnemies(done, live, collide);
        } else {
          assert AfterEnemies(done + {bullet}, live, collide) == AfterEnemies(done, live, collide) + {bullet};
        }
        pending := pending - {bullet};
      }
    }

    /** Bullets against the player: `spritecollide(player, bullets, True,
        collide_mask)` kills the bullets that collide with the player, and
        the player is damaged once if there were any. */
    method PlayerStage(collide: (nat, nat) -> bool, now: int)
      modifies this`bullets, player`health, player`isVulnerable, player`hitTime
      ensures bullets == AfterPlayer(old(bullets), player.id, collide)
      ensures player.Vitality() == if SpriteCollide(player.id, old(bullets), collide) != {}
                                   then Damage(old(player.Vitality()), now) else old(player.Vitality())
      ensures player.alive == old(player.alive)
    {
      var hits := SpriteCollide(player.id, bullets, collide);
      bullets := bullets - hits;
      if hits != {} {
        player.Damage(now);
      }
    }
  }

  /** `for sprite in sprites: sprite.damage()`. */
  method DamageEach(sprites: set<Entity>, now: int)
    modifies sprites`health, sprites`isVulnerable, sprites`hitTime
    ensures forall e :: e in sprites ==> e.Vitality() == Damage(old(e.Vitality()), now)
    ensures forall e :: e in sprites ==> e.alive == old(e.alive)
  {
    var rest := sprites;
    while rest != {}
      decreases rest
      invariant rest <= sprites
      invariant forall e :: e in sprites ==> e.alive == old(e.alive)
      invariant forall e :: e in sprites - rest ==> e.Vitality() == Damage(old(e.Vitality()), now)
      invariant forall e :: e in rest ==> e.Vitality() == old(e.Vitality())
    {
      var sprite :| sprite in rest;
      sprite.Damage(now);
      rest := rest - {sprite};
    }
  }
}
