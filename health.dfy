/** The damage / invulnerability state machine of `Entity`
    (code/entity.py: `damage`, `vulnerability_timer`, `check_dealth`), as
    functions on the three fields it uses.  `pygame.time.get_ticks()` is the
    explicit millisecond clock reading `now`. */
module Health {

  datatype Option<T> = None | Some(value: T)

  /** `health`, `is_vulnerable` and `hit_time` of one entity. */
  datatype Vitals = Vitals(health: int, vulnerable: bool, hitTime: Option<int>)

  /** Health every entity is created with. */
  const StartHealth: int := 5

  /** Length, in milliseconds, of the invulnerability window after a hit. */
  const WindowMs: int := 300

  /** The state `__init__` sets up: full health, vulnerable, never hit. */
  function Initial(): Vitals
  {
    Vitals(StartHealth, true, None)
  }

  /** An invulnerable entity always has the time of the hit that made it
      so; `vulnerability_timer` subtracts it from the clock. */
  predicate Coherent(v: Vitals)
  {
    !v.vulnerable ==> v.hitTime.Some?
  }

  /** `damage()`: a vulnerable entity loses one health point, becomes
      invulnerable and records the time; an invulnerable one is unchanged. */
  function Damage(v: Vitals, now: int): (r: Vitals)
    ensures Coherent(v) ==> Coherent(r)
    ensures !r.vulnerable
    ensures v.vulnerable ==> r.health == v.health - 1 && r.hitTime == Some(now)
    ensures !v.vulnerable ==> r == v
  {
    if v.vulnerable then Vitals(v.health - 1, false, Some(now)) else v
  }

  /** `vulnerability_timer()`: the entity becomes vulnerable again once
      strictly more than `WindowMs` have passed since the hit. */
  function Timer(v: Vitals, now: int): (r: Vitals)
    requires Coherent(v)
    ensures Coherent(r)
    ensures r.health == v.health && r.hitTime == v.hitTime
    ensures r.vulnerable <==> v.vulnerable || now - v.hitTime.value > WindowMs
  {
    if !v.vulnerable && now - v.hitTime.value > WindowMs then v.(vulnerable := true) else v
  }

  /** `check_dealth()` kills the entity exactly when its health is zero or
      below. */
  predicate Dead(v: Vitals)
  {
    v.health <= 0
  }

  /** Damage does not stack: a second `damage()` before the timer has run
      changes nothing, whenever it comes. */
  lemma DamageNoStack(v: Vitals, first: int, second: int)
    ensures Damage(Damage(v, first), second) == Damage(v, first)
  {
  }

  /** Right after a hit, the timer keeps the entity invulnerable for the whole
      window, including its last millisecond. */
  lemma TimerHoldsThroughWindow(v: Vitals, hit: int, now: int)
    requires v.vulnerable
    requires now - hit <= WindowMs
    ensures !Timer(Damage(v, hit), now).vulnerable
  {
  }

  /** What happens to an entity from one frame to the next, as far as this
      state machine is concerned. */
  datatype Event = Hit(at: int) | Tick(at: int)

  function Apply(v: Vitals, e: Event): (r: Vitals)
    requires Coherent(v)
    ensures Coherent(r)
  {
    match e
    case Hit(t) => Damage(v, t)
    case Tick(t) => Timer(v, t)
  }

  function Run(v: Vitals, events: seq<Event>): (r: Vitals)
    requires Coherent(v)
    ensures Coherent(r)
    decreases |events|
  {
    if events == [] then v else Run(Apply(v, events[0]), events[1..])
  }

  function HitCount(events: seq<Event>): nat
    decreases |events|
  {
    if events == [] then 0 else (if events[0].Hit? then 1 else 0) + HitCount(events[1..])
  }

  /** No sequence of hits and timer checks ever raises health, and each hit
      costs at most one point. */
  lemma {:induction false} HealthBounds(v: Vitals, events: seq<Event>)
    requires Coherent(v)
    ensures v.health - HitCount(events) <= Run(v, events).health <= v.health
    decreases |events|
  {
    if events != [] {
      HealthBounds(Apply(v, events[0]), events[1..]);
    }
  }

  /** Damage cannot stack inside the window: once hit at `hit`, any mixture
      of further hits and timer checks up to `WindowMs` later leaves health
      where that hit put it, and the entity still invulnerable. */
  lemma {:induction false} NoStackWithinWindow(v: Vitals, hit: int, events: seq<Event>)
    requires v.vulnerable
    requires forall i :: 0 <= i < |events| ==> events[i].at - hit <= WindowMs
    ensures Run(Damage(v, hit), events) == Damage(v, hit)
    decreases |events|
  {
    if events != [] {
      assert Apply(Damage(v, hit), events[0]) == Damage(v, hit);
      forall i | 0 <= i < |events| - 1
        ensures events[1..][i].at - hit <= WindowMs
      {
        assert events[1..][i] == events[i + 1];
      }
      NoStackWithinWindow(v, hit, events[1..]);
    }
  }

  /** Hits spaced by more than the window, each after a timer check, all
      land: three of them take a fresh entity from 5 to 2. */
  lemma ThreeSpacedHits()
    ensures Run(Initial(), [Hit(0), Tick(301), Hit(301), Tick(602), Hit(602)]).health == 2
  {
  }

  /** Two hits 100 ms apart, with a timer check between, cost one point. */
  lemma TwoCloseHits()
    ensures Run(Initial(), [Hit(0), Tick(100), Hit(100)]).health == StartHealth - 1
  {
  }
}
