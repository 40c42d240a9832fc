# Red Mini Redemption: entity, collision and combat core in Dafny

A model of the game logic of a small top-down pygame shooter: the state every
moving, damageable sprite shares (`Entity` in `code/entity.py`), with its
axis-separated hitbox collision against the obstacle group and its
damage / invulnerability state machine; the per-frame bullet pipeline of
`Game.bullet_collision`; and the camera offset and depth-sorted draw list of
`AllSprites.customize_draw` (both in `code/main.py`).

Modules, leaves first:

- `Rects` (`rects.dfy`): pygame's integer `Rect` with the attributes the game
  reads and assigns (`left`/`right`/`centerx` and their vertical twins,
  `inflate`, `colliderect`), written once per `Axis`.
- `Resolution` (`resolution.dfy`): Python's `round` (code/entity.py:99,
  105), and the collision pass as functions with what a pass guarantees
  proved about them. `Clamp` is the two direction tests and edge
  assignments for one obstacle (code/entity.py:113-116 and 120-123), `Step`
  is one turn of the loop with its `colliderect` test (code/entity.py:111),
  and `Resolve` and `Handled` are the hitbox after the loop over a prefix of
  the obstacle list, and whether any turn snapped (code/entity.py:110-125).
- `Health` (`health.dfy`): `damage`, `vulnerability_timer` and
  `check_dealth` as functions on `(health, is_vulnerable, hit_time)`, with an
  explicit clock reading `now` for `pygame.time.get_ticks()`.
- `Entities` (`entity.dfy`): class `Entity`, whose methods update its fields
  in place and are proved against the functions above.
- `Combat` (`combat.dfy`): class `Game` with the bullet group and
  `BulletCollision`, proved against stage functions on sets of bullets.
  `SpriteCollide` is `spritecollide` (code/main.py:57, 61, 68).
  `AfterObstacles` is the bullet group after the obstacle loop
  (code/main.py:56-57), `AfterEnemies` with `HitsEnemy` and `EnemyStruck`
  after the enemy loop (code/main.py:60-65), and `AfterPlayer` after the
  player test (code/main.py:68-69).
- `Camera` (`camera.dfy`): the draw list as a function, with a stable sort of
  the group by `rect.centery`. `Offset` is the offset vector
  (code/main.py:18-19), `Place` the centre a sprite is blitted at
  (code/main.py:26-27), `Depths` and `DepthOrder` the sort key and the
  `sorted` call (code/main.py:25), and `DrawList` the whole loop
  (code/main.py:25-28).

Representation choices:

- pygame's `collide_mask` is an abstract relation `collide(left, right)` on
  sprite identities, passed in. The argument order is the one the source
  uses: `(obstacle, bullet)`, `(bullet, enemy)`, `(player, bullet)`.
- The bullet group is a set of bullet identities. A pygame group is an
  insertion-ordered set, but no outcome of `bullet_collision` depends on
  that order.
- `kill()` removes a sprite from every group at once. It is modelled as the
  flag `Entity.alive`, and the enemy group is the set of spawned enemies
  whose flag is set.
- `pos` is a `real`, and `direction` is read only for its sign.

What the code guarantees, and what it does not:

- A collision pass clears only the obstacles that collided with the hitbox
  when the loop reached them (`ResolveClearsHandled`). An obstacle passed
  over earlier can be overlapped once a later one pushes the hitbox back
  (`SkippedObstacleCanBeOverlapped`). With no motion on the axis nothing is
  pushed at all (`ResolveStandingStill`).
- The draw order uses `sorted`, which is stable, so sprites of equal depth
  are drawn in group order.
- Sprites are told apart by their `id`. `Game.Valid` asks that the player
  and the enemies all have different ids, as distinct pygame sprite objects
  are distinct.

## Model

| member | source | states |
|---|---|---|
| `Rects.Rect.WithEnd` | code/entity.py:114 | assigning `right` (or `bottom`) puts that edge at the value given, and keeps the size and the position on the other axis |
| `Rects.Rect.WithStart` | code/entity.py:116 | assigning `left` (or `top`) puts that edge at the value given, and keeps the size and the other axis |
| `Rects.Rect.WithCenter` | code/entity.py:99-100 | assigning `centerx` (or `centery`) makes the centre read back as the value given, and keeps the size and the other axis |
| `Rects.InflateCenter` | code/entity.py:23 | `inflate` keeps the centre when the size changes by an even amount; an odd change moves it by exactly one pixel, forward when growing an odd size, back when shrinking an even size, and not at all otherwise |
| `Rects.ApartOnAxis` | code/entity.py:111 | rectangles that only touch, or are apart, on one axis do not `colliderect` |
| `Rects.CollidesOnAxis` | code/entity.py:111 | rectangles that collide overlap strictly on each axis |
| `Resolution.Round` | code/entity.py:99 | `round` gives an integer within one half of the position, and the even one on a tie |
| `Resolution.RoundUnique` | code/entity.py:99 | those two properties determine the result, so `Round` is round-half-to-even |
| `Resolution.HandledIffSomeCollided` | code/entity.py:110-111 | `rect` and `pos` are snapped in a pass exactly when some obstacle collided with the hitbox at its turn in the loop |
| `Resolution.ResolveUnhandled` | code/entity.py:109-125 | a pass in which no obstacle collided leaves the hitbox unchanged |
| `Resolution.ResolveKeepsShape` | code/entity.py:109-125 | a pass never changes the hitbox's width or height or its position on the other axis |
| `Resolution.ResolveStandingStill` | code/entity.py:113-116 | with zero direction on the axis the hitbox is not moved, whatever it overlaps |
| `Resolution.StepNeverAdvances` | code/entity.py:112-116 | handling one obstacle pushes the hitbox against its motion, never with it |
| `Resolution.ResolveNeverAdvances` | code/entity.py:110-125 | over a whole pass, moving right or down the hitbox's start never grows, and moving left or up it never shrinks |
| `Resolution.ResolveClearsHandled` | code/entity.py:110-125 | every obstacle that collided at its turn is clear at the end of the pass: moving right, `hitbox.right <= obstacle.left`; moving left, `hitbox.left >= obstacle.right`; the same for bottom and top |
| `Resolution.ResolveFlushWithLastHandled` | code/entity.py:113-116 | the last obstacle handled leaves the hitbox flush against it: moving right, `right == obstacle.left`; moving left, `left == obstacle.right` |
| `Resolution.SkippedObstacleCanBeOverlapped` | code/entity.py:110-118 | a concrete case where a pass ends overlapping an obstacle the loop had passed over |
| `Health.Damage` | code/entity.py:56-60 | a vulnerable entity loses exactly 1 health, becomes invulnerable and records `hit_time = now`; an invulnerable one is unchanged |
| `Health.Timer` | code/entity.py:68-72 | vulnerability returns exactly when the entity was vulnerable already or `now - hit_time > 300`; health and `hit_time` stay |
| `Health.DamageNoStack` | code/entity.py:57 | a second `damage()` before the timer has run changes nothing |
| `Health.TimerHoldsThroughWindow` | code/entity.py:71 | up to and including 300 ms after a hit the timer keeps the entity invulnerable |
| `Health.HealthBounds` | code/entity.py:56-72 | over any sequence of hits and timer checks health never rises and falls by at most one per hit |
| `Health.NoStackWithinWindow` | code/entity.py:57-72 | after a hit, any further hits and timer checks within 300 ms leave the state exactly as that hit left it |
| `Health.ThreeSpacedHits` | code/entity.py:56-72 | three hits more than 300 ms apart, each after a timer check, take a new entity from 5 to 2 health |
| `Health.TwoCloseHits` | code/entity.py:56-72 | two hits 100 ms apart cost a single health point |
| `Entities.Entity.constructor` | code/entity.py:7-33 | a new entity has `frame_index = 0`, `status = 'down'`, `speed = 200`, health 5, is vulnerable with no `hit_time`, has zero direction, `pos` at the spawn point, `rect` centred there and `hitbox = rect.inflate(...)` |
| `Entities.Entity.Damage` | code/entity.py:56-60 | `damage()` changes the three fields as `Health.Damage` says and nothing else; health never rises |
| `Entities.Entity.VulnerabilityTimer` | code/entity.py:68-72 | `vulnerability_timer()` changes only `is_vulnerable`, as `Health.Timer` says |
| `Entities.Entity.CheckDeath` | code/entity.py:63-65 | the entity leaves its groups exactly when health is `<= 0`, however negative; otherwise nothing changes |
| `Entities.Entity.Collision` | code/entity.py:109-125 | the hitbox ends as `Resolve` of the obstacle list; `rect` and `pos` on the axis are snapped to the hitbox centre exactly when an obstacle was handled; sizes and the other axis are untouched |
| `Entities.Entity.Move` | code/entity.py:91-107 | the two passes in order, each starting from the rounded new position; afterwards `rect.center == hitbox.center` on both axes, sizes are kept, and `pos` is the moved position or, if the pass handled an obstacle, the hitbox centre |
| `Combat.AfterObstaclesSurvivors` | code/main.py:56-57 | a bullet survives the obstacle stage exactly when no obstacle collides with it |
| `Combat.ObstaclesShieldFirst` | code/main.py:56-69 | every enemy or player hit in a call comes from a bullet that no obstacle collides with, so a bullet removed in stage 1 damages nothing |
| `Combat.Survivors` | code/main.py:56-69 | after the call, the bullets left are exactly those that hit no obstacle, no live enemy and not the player |
| `Combat.Game.constructor` | code/main.py:39-43 | the groups start with the bullet group empty and the player outside the enemy group |
| `Combat.Game.BulletCollision` | code/main.py:53-69 | the three stages in order: the bullet group ends as the stage functions say; each live enemy hit by a stage-1 survivor is damaged once, every other enemy is unchanged, and no enemy is killed; the player is damaged once exactly when a remaining bullet hits it; only the bullet group and the health, vulnerability and hit time of the enemies and the player may change, so every entity that was valid stays valid |
| `Combat.Game.ObstacleStage` | code/main.py:56-57 | the loop over the obstacles kills the bullets each one collides with; obstacles are untouched |
| `Combat.Game.EnemyStage` | code/main.py:60-65 | a bullet that hits live enemies is killed and each of those enemies gets `damage()`; enemies stay alive; other bullets stay; nothing but the bullet group and the enemies' health, vulnerability and hit time changes |
| `Combat.Game.PlayerStage` | code/main.py:68-69 | the bullets hitting the player are killed, and the player is damaged once if there were any; nothing but the bullet group and the player's health, vulnerability and hit time changes |
| `Combat.DamageEach` | code/main.py:64-65 | each sprite of the hit list goes through `damage()`, and only the three fields `damage()` sets change |
| `Camera.TrackedAtWindowCenter` | code/main.py:18-19 | the tracked sprite is drawn centred at `(WINDOW_WIDTH / 2, WINDOW_HEIGHT / 2)` |
| `Camera.DepthOrder` | code/main.py:25 | the draw order holds each member once and is ascending by `rect.centery`, with ties in group order |
| `Camera.DepthOrderUnique` | code/main.py:25 | only one order is a permutation sorted that way, so the model agrees with any stable sort |
| `Camera.DrawList` | code/main.py:16-28 | one item per member, each member drawn at `rect.center - offset`, screen `y` non-decreasing along the list |
| `Camera.DrawListIsStableSort` | code/main.py:25-27 | item `p` of the draw list is the `p`-th member in stable depth order, placed at its centre minus the offset |

## Left out

- Display, blitting of the background and sprites, image and mask creation,
  and sound playback (the hit sound in `damage`, music): I/O through pygame.
- `import_assets`, the TMX map loading and spawning in `setup`, the `run`
  loop, event polling and clock pacing: filesystem, third-party parsing and
  process plumbing. `Game.constructor` stands for the groups once `setup`
  has filled them.
- `blink` and `wave_value`: cosmetic, driven by the float `sin` of wall-clock
  ticks.
- The float part of `move`: normalising `direction` (a square root), and
  `pos += direction * speed * dt`. `Entities.Entity.Move` receives the
  displacement `direction * speed * dt` for each axis. Positions are exact
  reals, so floating-point rounding is not modelled.
- Entities.Entity.constructor: takes the whole pixels that `inflate`
  removes from the width and height as parameters instead of computing them
  from the float factors `0.6` and `1/2`.
- Camera.DrawList: gives each screen centre as an exact real. pygame then
  converts it to whole pixels when it stores it in a `Rect`, and that
  conversion is not modelled. With even window sizes the value is already
  whole.
- pygame's handling of rectangles with zero or negative size in
  `colliderect`, where `Rects.Rect.Collides` differs from it. The entity's
  `rect` and `hitbox` are positive by construction (`Entity.Valid`). The
  obstacle hitboxes come from `Sprite`, which is not part of this model, and
  are assumed positive.
- Combat.Game.BulletCollision: uses one clock reading `now` for every
  `damage()` of the call, where each `damage()` reads the ticks itself. The
  `hit_time` recorded can therefore differ by the milliseconds the call
  takes. The outcome is otherwise the same, because a second `damage()` on
  an entity in the same call changes nothing (`Health.DamageNoStack`).
- The pixel-accurate `collide_mask`, kept as the abstract `collide`
  relation.
- `Bullet`, `Player`, `Coffin`, `Cactus`, `Sprite` and the settings module
  (WINDOW_WIDTH and WINDOW_HEIGHT are parameters) are not part of this model.
  So are `create_bullet`, any bullet lifetime, and the sprites' `update`
  methods, which the run loop calls each frame through
  `self.all_sprites.update(dt)` (code/main.py:106).
