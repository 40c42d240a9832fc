/** `AllSprites.customize_draw` (code/main.py): the camera offset that keeps
    the tracked sprite (the player) in the middle of the window, and the list
    of sprites to draw, back to front by the vertical centre of their
    `rect`, each shifted by the offset. Blitting the background and the
    images is left to pygame. */
module Camera {
  import opened Rects

  /** A pygame `Vector2`. */
  datatype Vec = Vec(x: real, y: real)

  /** A member of the group: who it is and its `rect`. */
  datatype Sprite = Sprite(id: nat, rect: Rect)

  /** One blit: which sprite, and the centre of the rectangle it is drawn
      into, in window coordinates. */
  datatype DrawItem = DrawItem(id: nat, center: Vec)

  /** `self.offset`: the tracked rectangle's centre minus half the window.
      Python's `/` is true division, so the offset may be half a pixel. */
  function Offset(tracked: Rect, windowWidth: int, windowHeight: int): Vec
  {
    Vec(tracked.Center(Horizontal) as real - windowWidth as real / 2.0,
        tracked.Center(Vertical) as real - windowHeight as real / 2.0)
  }

  /** Where `sprite` is drawn: its `rect.center` minus the offset. */
  function Place(sprite: Sprite, offset: Vec): DrawItem
  {
    DrawItem(sprite.id, Vec(sprite.rect.Center(Horizontal) as real - offset.x,
                            sprite.rect.Center(Vertical) as real - offset.y))
  }

  /** The tracked sprite lands in the middle of the window. */
  lemma TrackedAtWindowCenter(sprite: Sprite, windowWidth: int, windowHeight: int)
    ensures Place(sprite, Offset(sprite.rect, windowWidth, windowHeight)).center
            == Vec(windowWidth as real / 2.0, windowHeight as real / 2.0)
  {
  }

  /** The order `sorted` puts two members in, given their sort keys: the
      smaller key first and, the sort being stable, of equal keys the one
      earlier in the group. */
  predicate Before(keys: seq<int>, i: nat, j: nat)
    requires i < |keys| && j < |keys|
  {
    keys[i] < keys[j] || (keys[i] == keys[j] && i < j)
  }

  /** `order` lists positions of `keys`, each strictly `Before` the next. */
  predicate InDepthOrder(keys: seq<int>, order: seq<nat>)
  {
    (forall p :: 0 <= p < |order| ==> order[p] < |keys|) &&
    (forall p, q :: 0 <= p < q < |order| ==> Before(keys, order[p], order[q]))
  }

  /** `order` holds each of the positions `0 .. n - 1` once. */
  ghost predicate IsPermutation(order: seq<nat>, n: nat)
  {
    |order| == n && forall i: nat :: i in order <==> i < n
  }

  /** Inserts position `i` into a list already in depth order. */
  function Insert(keys: seq<int>, i: nat, order: seq<nat>): (r: seq<nat>)
    requires i < |keys| && i !in order
    requires InDepthOrder(keys, order)
    ensures |r| == |order| + 1
    ensures forall x :: x in r <==> x == i || x in order
    ensures InDepthOrder(keys, r)
    decreases |order|
  {
    if order == [] then [i]
    else if Before(keys, i, order[0]) then [i] + order
    else
      var rest := Insert(keys, i, order[1..]);
      assert forall x :: x in rest ==> Before(keys, order[0], x) by {
        forall x | x in rest
          ensures Before(keys, order[0], x)
        {
          if x != i {
            var p :| 1 <= p < |order| && order[p] == x;
          }
        }
      }
      PrependInDepthOrder(keys, order[0], rest);
      [order[0]] + rest
  }

  /** A position `Before` everything in a list in depth order may head it. */
  lemma PrependInDepthOrder(keys: seq<int>, x: nat, order: seq<nat>)
    requires x < |keys| && InDepthOrder(keys, order)
    requires forall y :: y in order ==> Before(keys, x, y)
    ensures InDepthOrder(keys, [x] + order)
  {
    forall p, q | 0 <= p < q < |order| + 1
      ensures Before(keys, ([x] + order)[p], ([x] + order)[q])
    {
      assert ([x] + order)[q] == order[q - 1];
      if p > 0 {
        assert ([x] + order)[p] == order[p - 1];
      }
    }
  }

  /** The first `n` positions of `keys` in depth order. */
  function SortPrefix(keys: seq<int>, n: nat): (order: seq<nat>)
    requires n <= |keys|
    ensures IsPermutation(order, n)
    ensures InDepthOrder(keys, order)
  {
    if n == 0 then [] else Insert(keys, n - 1, SortPrefix(keys, n - 1))
  }

  /** `sorted(range(len(keys)), key = keys.__getitem__)`. */
  function DepthOrder(keys: seq<int>): (order: seq<nat>)
    ensures IsPermutation(order, |keys|)
    ensures InDepthOrder(keys, order)
  {
    SortPrefix(keys, |keys|)
  }

  /** The head of a list in depth order comes `Before` everything else in
      it. */
  lemma HeadComesFirst(keys: seq<int>, order: seq<nat>, x: nat)
    requires InDepthOrder(keys, order) && order != []
    ensures x in order ==> x == order[0] || Before(keys, order[0], x)
    ensures x in order[1..] ==> x in order && x != order[0]
  {
    if x in order[1..] {
      var p :| 0 <= p < |order| - 1 && order[1..][p] == x;
      assert order[p + 1] == x;
    }
  }

  /** A stable sort has only one possible result: any permutation in depth
      order is `DepthOrder`, whatever algorithm produced it. */
  lemma {:induction false} DepthOrderUnique(keys: seq<int>, a: seq<nat>, b: seq<nat>)
    requires |a| == |b|
    requires forall x :: x in a <==> x in b
    requires InDepthOrder(keys, a) && InDepthOrder(keys, b)
    ensures a == b
    decreases |a|
  {
    if a != [] {
      HeadComesFirst(keys, a, b[0]);
      HeadComesFirst(keys, b, a[0]);
      assert a[0] == b[0];
      forall x
        ensures x in a[1..] <==> x in b[1..]
      {
        HeadComesFirst(keys, a, x);
        HeadComesFirst(keys, b, x);
        if x in a && x != a[0] {
          var q :| 0 <= q < |b| && b[q] == x;
          assert b[1..][q - 1] == x;
          var p :| 0 <= p < |a| && a[p] == x;
          assert a[1..][p - 1] == x;
        }
      }
      DepthOrderUnique(keys, a[1..], b[1..]);
    }
  }

  /** The sort keys: each member's `rect.centery`. */
  function Depths(sprites: seq<Sprite>): seq<int>
  {
    seq(|sprites|, k requires 0 <= k < |sprites| => sprites[k].rect.Center(Vertical))
  }

  /** The blits `customize_draw` makes, in order, when tracking `tracked`. */
  function DrawList(sprites: seq<Sprite>, tracked: Rect, windowWidth: int, windowHeight: int): (items: seq<DrawItem>)
    ensures |items| == |sprites|
    ensures forall k :: 0 <= k < |sprites| ==> Place(sprites[k], Offset(tracked, windowWidth, windowHeight)) in items
    ensures forall p, q :: 0 <= p < q < |items| ==> items[p].center.y <= items[q].center.y
  {
    var order := DepthOrder(Depths(sprites));
    var offset := Offset(tracked, windowWidth, windowHeight);
    var items := seq(|order|, p requires 0 <= p < |order| => Place(sprites[order[p]], offset));
    forall k | 0 <= k < |sprites|
      ensures Place(sprites[k], offset) in items
    {
      assert k in order;
      var p :| 0 <= p < |order| && order[p] == k;
      assert items[p] == Place(sprites[k], offset);
    }
    items
  }

  /** The draw list is the group drawn in the one order a stable sort by
      `rect.centery` allows: each member once, at its `rect.center` minus the
      offset, lower sprites later, and members of equal depth in group
      order. */
  lemma DrawListIsStableSort(sprites: seq<Sprite>, tracked: Rect, windowWidth: int, windowHeight: int,
                             order: seq<nat>)
    requires IsPermutation(order, |sprites|)
    requires InDepthOrder(Depths(sprites), order)
    ensures |DrawList(sprites, tracked, windowWidth, windowHeight)| == |order|
    ensures forall p :: 0 <= p < |order| ==>
              DrawList(sprites, tracked, windowWidth, windowHeight)[p]
              == Place(sprites[order[p]], Offset(tracked, windowWidth, windowHeight))
  {
    var keys := Depths(sprites);
    DepthOrderUnique(keys, order, DepthOrder(keys));
  }
}
