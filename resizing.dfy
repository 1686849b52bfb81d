/**
 * The geometry setters of a resizable component: AbstractResizableComponent
 * decides which parts of a new location, size or bounds apply, and
 * DefaultResizableComponent invalidates the component after a change and
 * repaints the union of its old and new preferred bounds. A
 * DefaultAdjustableComponent also repositions its handles after every size
 * or bounds request.
 */
module Resizing {
  import opened Outcomes
  import opened Seqs
  import opened Geometry
  import opened Nodes
  import opened Graph
  import opened Walks
  import opened Panels
  import opened Validation

  // ---------------------------------------------------------------------------
  // Gating (AbstractResizableComponent).

  /** setLocation(x, y) changes something: the component is movable and the
      location differs. */
  predicate Moves(n: Node, b: Rect, x: int, y: int) {
    Movable in n.a.on && (b.x != x || b.y != y)
  }

  /** setSize(w, h) changes something: the component is resizable and the
      size differs. */
  predicate Resizes(n: Node, b: Rect, w: int, h: int) {
    Sizable in n.a.on && (b.w != w || b.h != h)
  }

  /** setBounds(r) gets past its guards: r differs from the bounds and the
      component is movable or resizable. */
  predicate Rebounds(n: Node, b: Rect, r: Rect) {
    b != r && (Movable in n.a.on || Sizable in n.a.on)
  }

  /** The bounds setLocation(x, y) leaves: the new location when the
      component is movable, the old bounds otherwise; the size is kept. */
  function MovedTo(n: Node, b: Rect, x: int, y: int): (r: Rect)
    ensures r.w == b.w && r.h == b.h
    ensures Movable in n.a.on ==> r.x == x && r.y == y
    ensures r == b <==> !Moves(n, b, x, y)
  {
    if Movable in n.a.on then Rect(x, y, b.w, b.h) else b
  }

  /** The bounds setSize(w, h) leaves: the new size when the component is
      resizable, the old bounds otherwise; the location is kept. */
  function SizedTo(n: Node, b: Rect, w: int, h: int): (r: Rect)
    ensures r.x == b.x && r.y == b.y
    ensures Sizable in n.a.on ==> r.w == w && r.h == h
    ensures r == b <==> !Resizes(n, b, w, h)
  {
    if Sizable in n.a.on then Rect(b.x, b.y, w, h) else b
  }

  /** The bounds setBounds(r) leaves: a component that is neither movable
      nor resizable keeps its bounds; one that is not movable keeps its
      location and takes the new size; one that is movable but not
      resizable takes the new location and keeps its size. */
  function Gated(n: Node, b: Rect, r: Rect): (g: Rect)
    ensures Movable !in n.a.on && Sizable !in n.a.on ==> g == b
    ensures Movable !in n.a.on && Sizable in n.a.on ==> g == Rect(b.x, b.y, r.w, r.h)
    ensures Movable in n.a.on && Sizable !in n.a.on ==> g == Rect(r.x, r.y, b.w, b.h)
    ensures Movable in n.a.on && Sizable in n.a.on ==> g == r
  {
    if Movable !in n.a.on && Sizable !in n.a.on then b
    else if Movable !in n.a.on then Rect(b.x, b.y, r.w, r.h)
    else if Sizable !in n.a.on then Rect(r.x, r.y, b.w, b.h)
    else r
  }

  /** The bounds setBounds(r) leaves, guards included. */
  function BoundsAfter(n: Node, b: Rect, r: Rect): (g: Rect)
    ensures !Rebounds(n, b, r) ==> g == b
    ensures Rebounds(n, b, r) ==> g == Gated(n, b, r)
  {
    if Rebounds(n, b, r) then Gated(n, b, r) else b
  }

  /** Applying a request twice leaves what applying it once does. A movable
      component whose bounds differ from the request only in its size, as it
      must not be resizable, passes the setBounds guards and keeps its bounds:
      DefaultResizableComponent then invalidates it although nothing moved. */
  lemma {:induction false} GatingSettles(n: Node, b: Rect, x: int, y: int, w: int, h: int, r: Rect)
    ensures MovedTo(n, MovedTo(n, b, x, y), x, y) == MovedTo(n, b, x, y)
    ensures SizedTo(n, SizedTo(n, b, w, h), w, h) == SizedTo(n, b, w, h)
    ensures Gated(n, Gated(n, b, r), r) == Gated(n, b, r)
    ensures Movable in n.a.on && Sizable !in n.a.on && r.x == b.x && r.y == b.y && r != b ==>
      Rebounds(n, b, r) && Gated(n, b, r) == b
  {
  }

  // ---------------------------------------------------------------------------
  // AbstractResizableComponent's setters: the bounds change and one property
  // change is noted.

  /** AbstractResizableComponent.setLocation: nothing happens unless the
      component is movable and the location differs; otherwise the location
      changes, the size stays, and LOCATION is noted. */
  method MoveTo(s: Scene, c: Id, x: int, y: int)
    requires s.Sound() && c in s.nodes
    modifies s`geo, s`log
    ensures s.Sound()
    ensures s.geo == old(s.geo)[c := old(s.geo[c]).(bounds := MovedTo(s.nodes[c], old(s.geo[c].bounds), x, y))]
    ensures s.log == old(s.log) + (if Moves(s.nodes[c], old(s.geo[c].bounds), x, y) then [Changed(c, LocationProp)] else [])
  {
    var g := s.geo[c];
    if !Moves(s.nodes[c], g.bounds, x, y) {
      return;
    }
    s.geo := s.geo[c := g.(bounds := Rect(x, y, g.bounds.w, g.bounds.h))];
    s.log := s.log + [Changed(c, LocationProp)];
  }

  /** AbstractResizableComponent.setSize: nothing happens unless the
      component is resizable and the size differs; otherwise the size
      changes, the location stays, and SIZE is noted. */
  method SizeTo(s: Scene, c: Id, w: int, h: int)
    requires s.Sound() && c in s.nodes
    modifies s`geo, s`log
    ensures s.Sound()
    ensures s.geo == old(s.geo)[c := old(s.geo[c]).(bounds := SizedTo(s.nodes[c], old(s.geo[c].bounds), w, h))]
    ensures s.log == old(s.log) + (if Resizes(s.nodes[c], old(s.geo[c].bounds), w, h) then [Changed(c, SizeProp)] else [])
  {
    var g := s.geo[c];
    if !Resizes(s.nodes[c], g.bounds, w, h) {
      return;
    }
    s.geo := s.geo[c := g.(bounds := Rect(g.bounds.x, g.bounds.y, w, h))];
    s.log := s.log + [Changed(c, SizeProp)];
  }

  /** AbstractResizableComponent.setBounds: nothing happens when r equals the
      bounds or the component is neither movable nor resizable; otherwise the
      gated request is stored and BOUNDS is noted. */
  method BoundsTo(s: Scene, c: Id, r: Rect)
    requires s.Sound() && c in s.nodes
    modifies s`geo, s`log
    ensures s.Sound()
    ensures Rebounds(s.nodes[c], old(s.geo[c].bounds), r) ==>
      s.geo == old(s.geo)[c := old(s.geo[c]).(bounds := Gated(s.nodes[c], old(s.geo[c].bounds), r))]
      && s.log == old(s.log) + [Changed(c, BoundsProp)]
    ensures !Rebounds(s.nodes[c], old(s.geo[c].bounds), r) ==> s.geo == old(s.geo) && s.log == old(s.log)
  {
    var g := s.geo[c];
    if !Rebounds(s.nodes[c], g.bounds, r) {
      return;
    }
    s.geo := s.geo[c := g.(bounds := Gated(s.nodes[c], g.bounds, r))];
    s.log := s.log + [Changed(c, BoundsProp)];
  }

  // ---------------------------------------------------------------------------
  // DefaultResizableComponent's setters.

  /** What DefaultResizableComponent does after a geometry change: the
      component is invalidated (which invalidates its parent) and the union
      of its new and old preferred bounds is repainted. */
  method Refresh(s: Scene, c: Id, oldPref: Rect, fuel: nat) returns (o: Outcome)
    requires s.Sound() && c in s.nodes
    modifies s`valid, s`log
    ensures o.Thrown? ==> o == Thrown(StackOverflow)
    ensures Invalidation(s.nodes, old(s.valid), s.valid) && old(s.log) <= s.log
    ensures o.Normal? ==>
      c !in s.valid
      && EndsWith(s.log, RepaintNotes(s.nodes, s.geo, s.rank, c, Union(PreferredBounds(s.nodes[c], s.geo[c]), oldPref)))
  {
    o := Invalidate(s, c, fuel);
    if o.Thrown? {
      return;
    }
    ghost var l := s.log;
    Repaint(s, c, Union(PreferredBounds(s.nodes[c], s.geo[c]), oldPref));
    assert s.log[|l|..] == RepaintNotes(s.nodes, s.geo, s.rank, c, Union(PreferredBounds(s.nodes[c], s.geo[c]), oldPref));
  }

  /** How every setter of DefaultResizableComponent may change the scene:
      the store stays sound, validity only shrinks, as an invalidation
      shrinks it, and the log only grows. */
  twostate predicate SetterFrame(s: Scene)
    reads s
  {
    s.Sound() && Invalidation(s.nodes, old(s.valid), s.valid) && old(s.log) <= s.log
  }

  /** After a change, when the invalidation completed: the component is
      invalid, and so is its parent when the component was valid, and the
      last note is the repaint of the union of the new and the old preferred
      bounds. */
  twostate predicate Refreshed(s: Scene, c: Id, o: Outcome)
    requires Walkable(s.nodes, s.rank) && c in s.nodes && c in s.geo && c in old(s.geo)
    reads s
  {
    o.Normal? ==>
      c !in s.valid
      && (c in old(s.valid) && s.nodes[c].w.parent.Some? ==> s.nodes[c].w.parent.value !in s.valid)
      && EndsWith(s.log, RepaintNotes(s.nodes, s.geo, s.rank, c,
           Union(PreferredBounds(s.nodes[c], s.geo[c]), PreferredBounds(s.nodes[c], old(s.geo[c])))))
  }

  /** DefaultResizableComponent.setLocation: when the location changes, the
      component is invalidated and the union of its old and new preferred
      bounds is repainted; otherwise nothing happens. */
  method SetLocation(s: Scene, c: Id, x: int, y: int, fuel: nat) returns (o: Outcome)
    requires s.Sound() && c in s.nodes
    modifies s`geo, s`valid, s`log
    ensures o.Thrown? ==> o == Thrown(StackOverflow)
    ensures SetterFrame(s)
    ensures s.geo == old(s.geo)[c := old(s.geo[c]).(bounds := MovedTo(s.nodes[c], old(s.geo[c].bounds), x, y))]
    ensures !Moves(s.nodes[c], old(s.geo[c].bounds), x, y) ==>
      o == Normal && s.valid == old(s.valid) && s.log == old(s.log)
    ensures Moves(s.nodes[c], old(s.geo[c].bounds), x, y) ==>
      old(s.log) + [Changed(c, LocationProp)] <= s.log && Refreshed(s, c, o)
  {
    var n, g := s.nodes[c], s.geo[c];
    if !Moves(n, g.bounds, x, y) {
      return Normal;
    }
    MoveTo(s, c, x, y);
    ghost var l1 := s.log;
    o := Refresh(s, c, PreferredBounds(n, g), fuel);
    PrefixTrans(old(s.log) + [Changed(c, LocationProp)], l1, s.log);
  }

  /** DefaultResizableComponent.setSize. */
  method ResizableSetSize(s: Scene, c: Id, w: int, h: int, fuel: nat) returns (o: Outcome)
    requires s.Sound() && c in s.nodes
    modifies s`geo, s`valid, s`log
    ensures o.Thrown? ==> o == Thrown(StackOverflow)
    ensures SetterFrame(s)
    ensures s.geo == old(s.geo)[c := old(s.geo[c]).(bounds := SizedTo(s.nodes[c], old(s.geo[c].bounds), w, h))]
    ensures !Resizes(s.nodes[c], old(s.geo[c].bounds), w, h) ==>
      o == Normal && s.valid == old(s.valid) && s.log == old(s.log)
    ensures Resizes(s.nodes[c], old(s.geo[c].bounds), w, h) ==>
      old(s.log) + [Changed(c, SizeProp)] <= s.log && Refreshed(s, c, o)
  {
    var n, g := s.nodes[c], s.geo[c];
    if !Resizes(n, g.bounds, w, h) {
      return Normal;
    }
    SizeTo(s, c, w, h);
    ghost var l1 := s.log;
    o := Refresh(s, c, PreferredBounds(n, g), fuel);
    PrefixTrans(old(s.log) + [Changed(c, SizeProp)], l1, s.log);
  }

  /** DefaultResizableComponent.setBounds: past its guards the component is
      invalidated and repainted, even when gating leaves the bounds as they
      were. */
  method ResizableSetBounds(s: Scene, c: Id, r: Rect, fuel: nat) returns (o: Outcome)
    requires s.Sound() && c in s.nodes
    modifies s`geo, s`valid, s`log
    ensures o.Thrown? ==> o == Thrown(StackOverflow)
    ensures SetterFrame(s)
    ensures s.geo == old(s.geo)[c := old(s.geo[c]).(bounds := BoundsAfter(s.nodes[c], old(s.geo[c].bounds), r))]
    ensures !Rebounds(s.nodes[c], old(s.geo[c].bounds), r) ==>
      o == Normal && s.valid == old(s.valid) && s.log == old(s.log)
    ensures Rebounds(s.nodes[c], old(s.geo[c].bounds), r) ==>
      old(s.log) + [Changed(c, BoundsProp)] <= s.log && Refreshed(s, c, o)
  {
    var n, g := s.nodes[c], s.geo[c];
    if !Rebounds(n, g.bounds, r) {
      return Normal;
    }
    BoundsTo(s, c, r);
    ghost var l1 := s.log;
    o := Refresh(s, c, PreferredBounds(n, g), fuel);
    PrefixTrans(old(s.log) + [Changed(c, BoundsProp)], l1, s.log);
  }

  // ---------------------------------------------------------------------------
  // DefaultAdjustableComponent: handle positions.

  /** Where updateHandlePosition puts a handle of size hw x hh with coordinate
      k, in the own coordinates of an adjustable component with geometry g:
      cx and cy are getCenterX() - getX() and getCenterY() - getY(). */
  function HandleAnchor(k: Coordinate, g: Geo, hw: int, hh: int): (p: Point)
    ensures k in {NorthWest, West, SouthWest} ==> p.x == 0
    ensures k in {NorthEast, East, SouthEast} ==> p.x + hw == g.bounds.w
    ensures k in {North, Center, South} ==> p.x + JavaDiv(hw, 2) == CenterX(g) - g.bounds.x
    ensures k in {NorthWest, North, NorthEast} ==> p.y == 0
    ensures k in {SouthWest, South, SouthEast} ==> p.y + hh == g.bounds.h
    ensures k in {West, Center, East} ==> p.y + JavaDiv(hh, 2) == CenterY(g) - g.bounds.y
  {
    var cx, cy := CenterX(g) - g.bounds.x, CenterY(g) - g.bounds.y;
    var midX, midY := cx - JavaDiv(hw, 2), cy - JavaDiv(hh, 2);
    var right, bottom := g.bounds.w - hw, g.bounds.h - hh;
    match k
    case Center => Point(midX, midY)
    case NorthWest => Point(0, 0)
    case North => Point(midX, 0)
    case NorthEast => Point(right, 0)
    case East => Point(right, midY)
    case SouthEast => Point(right, bottom)
    case South => Point(midX, bottom)
    case SouthWest => Point(0, bottom)
    case West => Point(0, midY)
  }

  /** For a component at the origin of its parent, whose handle fits in it,
      every one of the nine anchors keeps the handle inside the component. */
  lemma HandleInside(k: Coordinate, g: Geo, hw: int, hh: int)
    requires g.bounds.x == 0 && g.bounds.y == 0
    requires 0 <= hw <= g.bounds.w && 0 <= hh <= g.bounds.h
    ensures var p := HandleAnchor(k, g, hw, hh);
      0 <= p.x && p.x + hw <= g.bounds.w && 0 <= p.y && p.y + hh <= g.bounds.h
  {
    JavaDivRem(g.bounds.w, 2);
    JavaDivRem(g.bounds.h, 2);
    JavaDivRem(hw, 2);
    JavaDivRem(hh, 2);
  }

  /** getCenterX() halves x + width rather than adding half the width to x,
      so away from the origin of its parent an adjustable component puts its
      centred handles outside itself: for bounds (100, 0, 50, 50) the CENTER
      handle of a 6 x 6 handle goes to x = -28. */
  lemma CentredHandleOutside()
    ensures HandleAnchor(Center, Geo(Rect(100, 0, 50, 50), None), 6, 6) == Point(-28, 22)
  {
  }

  /** The geometry updateHandlePosition leaves a handle h of the adjustable
      component c: a handle with a coordinate is moved, when it is movable, to
      its anchor for c's geometry and its own size. */
  function Placed(m: Store, gm: Geos, c: Id, h: Id): (g: Geo)
    requires h in m && h in gm && m[h].kind.Handle?
    ensures g.line == gm[h].line && g.bounds.w == gm[h].bounds.w && g.bounds.h == gm[h].bounds.h
    ensures m[h].kind.coord.None? ==> g == gm[h]
  {
    var k := m[h].kind.coord;
    if k.None? then gm[h]
    else
      var b := gm[h].bounds;
      var p := HandleAnchor(k.value, GeoOf(gm, c), b.w, b.h);
      gm[h].(bounds := MovedTo(m[h], b, p.x, p.y))
  }

  /** Placing a handle that is already placed leaves it where it is. */
  lemma PlacedSettles(m: Store, gm: Geos, c: Id, h: Id)
    requires h in m && h in gm && m[h].kind.Handle? && h != c
    ensures Placed(m, gm[h := Placed(m, gm, c, h)], c, h) == Placed(m, gm, c, h)
  {
    GatingSettles(m[h], gm[h].bounds, 0, 0, 0, 0, gm[h].bounds);
    var k := m[h].kind.coord;
    if k.Some? {
      var b := gm[h].bounds;
      var p := HandleAnchor(k.value, GeoOf(gm, c), b.w, b.h);
      GatingSettles(m[h], b, p.x, p.y, 0, 0, b);
    }
  }

  /** DefaultAdjustableComponent.updateHandlePosition for a handle h of the
      adjustable component c: a handle without a coordinate is left alone;
      otherwise it is moved through its own setLocation to its anchor. */
  method UpdateHandlePosition(s: Scene, c: Id, h: Id, fuel: nat) returns (o: Outcome)
    requires s.Sound() && c in s.nodes && h in s.nodes && s.nodes[h].kind.Handle? && h != c
    modifies s`geo, s`valid, s`log
    ensures o.Thrown? ==> o == Thrown(StackOverflow)
    ensures SetterFrame(s)
    ensures s.geo == old(s.geo)[h := Placed(s.nodes, old(s.geo), c, h)]
  {
    var k := s.nodes[h].kind.coord;
    if k.None? {
      return Normal;
    }
    var b := s.geo[h].bounds;
    var p := HandleAnchor(k.value, s.geo[c], b.w, b.h);
    o := SetLocation(s, h, p.x, p.y, fuel);
  }

  /** gm is g0 with the handles in `done` placed, and nothing else changed. */
  ghost predicate PlacedUpTo(m: Store, g0: Geos, gm: Geos, c: Id, done: seq<Id>) {
    gm.Keys == g0.Keys
    && (forall h | h in done :: h in m && h in g0 && m[h].kind.Handle? && h != c && gm[h] == Placed(m, g0, c, h))
    && (forall d | d in gm && d !in done :: gm[d] == g0[d])
  }

  lemma PlacedOneMore(m: Store, g0: Geos, gm: Geos, c: Id, done: seq<Id>, h: Id)
    requires h in m && h in g0 && m[h].kind.Handle? && h != c
    requires PlacedUpTo(m, g0, gm, c, done)
    ensures PlacedUpTo(m, g0, gm[h := Placed(m, gm, c, h)], c, done + [h])
  {
    PlacedSettles(m, g0, c, h);
    assert GeoOf(gm, c) == GeoOf(g0, c);
    if h in done {
      assert gm[h] == Placed(m, g0, c, h);
    }
  }

  /** One turn of the loop of updateHandlePositions: the next handle h of c
      is placed. */
  method PlaceNext(s: Scene, c: Id, ghost g0: Geos, ghost done: seq<Id>, h: Id, fuel: nat) returns (o: Outcome)
    requires s.Sound() && c in s.nodes && !s.nodes[c].kind.Handle? && h in s.nodes[c].a.handles
    requires g0.Keys == s.nodes.Keys && PlacedUpTo(s.nodes, g0, s.geo, c, done)
    modifies s`geo, s`valid, s`log
    ensures o.Thrown? ==> o == Thrown(StackOverflow)
    ensures SetterFrame(s)
    ensures o.Normal? ==> PlacedUpTo(s.nodes, g0, s.geo, c, done + [h])
  {
    PlacedOneMore(s.nodes, g0, s.geo, c, done, h);
    o := UpdateHandlePosition(s, c, h, fuel);
  }

  /** The geometry updateHandlePositions leaves when no call throws: every
      handle in c's handle list placed at its anchor, every other component
      as it was. */
  function PlacedAll(m: Store, gm: Geos, c: Id): (r: Geos)
    requires c in m
    ensures r.Keys == gm.Keys
    ensures forall h | h in gm && h in m[c].a.handles && h in m && m[h].kind.Handle? :: r[h] == Placed(m, gm, c, h)
    ensures forall d | d in gm && d !in m[c].a.handles :: r[d] == gm[d]
  {
    map d | d in gm :: if d in m[c].a.handles && d in m && m[d].kind.Handle? then Placed(m, gm, c, d) else gm[d]
  }

  lemma PlacedUpToAll(m: Store, g0: Geos, gm: Geos, c: Id)
    requires c in m && PlacedUpTo(m, g0, gm, c, m[c].a.handles)
    ensures gm == PlacedAll(m, g0, c)
  {
    forall d | d in gm
      ensures gm[d] == PlacedAll(m, g0, c)[d]
    {
    }
  }

  /** DefaultAdjustableComponent.updateHandlePositions: every handle in the
      handle list, in order, is placed by updateHandlePosition (so a moved
      handle is invalidated, and with it the adjustable component). When no
      call throws, every listed handle is placed at its anchor and no other
      component moves. */
  method UpdateHandlePositions(s: Scene, c: Id, fuel: nat) returns (o: Outcome)
    requires s.Sound() && c in s.nodes && !s.nodes[c].kind.Handle?
    modifies s`geo, s`valid, s`log
    ensures o.Thrown? ==> o == Thrown(StackOverflow)
    ensures SetterFrame(s)
    ensures o.Normal? ==> s.geo == PlacedAll(s.nodes, old(s.geo), c)
  {
    var hs := s.nodes[c].a.handles;
    var i := 0;
    while i < |hs|
      invariant 0 <= i <= |hs|
      invariant SetterFrame(s)
      invariant PlacedUpTo(s.nodes, old(s.geo), s.geo, c, hs[..i])
    {
      ghost var v0, l0 := s.valid, s.log;
      o := PlaceNext(s, c, old(s.geo), hs[..i], hs[i], fuel);
      InvalidationTrans(s.nodes, old(s.valid), v0, s.valid);
      PrefixTrans(old(s.log), l0, s.log);
      if o.Thrown? {
        return;
      }
      TakeOneMore(hs, i);
      i := i + 1;
    }
    TakeAll(hs);
    PlacedUpToAll(s.nodes, old(s.geo), s.geo, c);
    o := Normal;
  }

  // ---------------------------------------------------------------------------
  // setSize and setBounds as the class of the component defines them.

  /** setSize on a resizable component: DefaultResizableComponent's, followed
      for a DefaultAdjustableComponent by updateHandlePositions, which runs
      even when the size did not change. */
  method SetSize(s: Scene, c: Id, w: int, h: int, fuel: nat) returns (o: Outcome)
    requires s.Sound() && c in s.nodes && IsResizable(s.nodes[c].kind)
    modifies s`geo, s`valid, s`log
    ensures o.Thrown? ==> o == Thrown(StackOverflow)
    ensures SetterFrame(s)
    ensures !s.nodes[c].kind.Adjustable? ==>
      s.geo == old(s.geo)[c := old(s.geo[c]).(bounds := SizedTo(s.nodes[c], old(s.geo[c].bounds), w, h))]
    ensures s.nodes[c].kind.Adjustable? && o.Normal? ==>
      s.geo == PlacedAll(s.nodes, old(s.geo)[c := old(s.geo[c]).(bounds := SizedTo(s.nodes[c], old(s.geo[c].bounds), w, h))], c)
    ensures Resizes(s.nodes[c], old(s.geo[c].bounds), w, h) ==> old(s.log) + [Changed(c, SizeProp)] <= s.log
    ensures o.Normal? ==> s.geo[c].bounds == SizedTo(s.nodes[c], old(s.geo[c].bounds), w, h)
  {
    o := ResizableSetSize(s, c, w, h, fuel);
    if o.Thrown? || !s.nodes[c].kind.Adjustable? {
      return;
    }
    ghost var v1, l1 := s.valid, s.log;
    o := UpdateHandlePositions(s, c, fuel);
    InvalidationTrans(s.nodes, old(s.valid), v1, s.valid);
    PrefixTrans(old(s.log), l1, s.log);
    if Resizes(s.nodes[c], old(s.geo[c].bounds), w, h) {
      PrefixTrans(old(s.log) + [Changed(c, SizeProp)], l1, s.log);
    }
  }

  /** setBounds on a resizable component: DefaultResizableComponent's,
      followed for a DefaultAdjustableComponent by updateHandlePositions. */
  method SetBounds(s: Scene, c: Id, r: Rect, fuel: nat) returns (o: Outcome)
    requires s.Sound() && c in s.nodes && IsResizable(s.nodes[c].kind)
    modifies s`geo, s`valid, s`log
    ensures o.Thrown? ==> o == Thrown(StackOverflow)
    ensures SetterFrame(s)
    ensures !s.nodes[c].kind.Adjustable? ==>
      s.geo == old(s.geo)[c := old(s.geo[c]).(bounds := BoundsAfter(s.nodes[c], old(s.geo[c].bounds), r))]
    ensures s.nodes[c].kind.Adjustable? && o.Normal? ==>
      s.geo == PlacedAll(s.nodes, old(s.geo)[c := old(s.geo[c]).(bounds := BoundsAfter(s.nodes[c], old(s.geo[c].bounds), r))], c)
    ensures Rebounds(s.nodes[c], old(s.geo[c].bounds), r) ==> old(s.log) + [Changed(c, BoundsProp)] <= s.log
    ensures o.Normal? ==> s.geo[c].bounds == BoundsAfter(s.nodes[c], old(s.geo[c].bounds), r)
  {
    o := ResizableSetBounds(s, c, r, fuel);
    if o.Thrown? || !s.nodes[c].kind.Adjustable? {
      return;
    }
    ghost var v1, l1 := s.valid, s.log;
    o := UpdateHandlePositions(s, c, fuel);
    InvalidationTrans(s.nodes, old(s.valid), v1, s.valid);
    PrefixTrans(old(s.log), l1, s.log);
    if Rebounds(s.nodes[c], old(s.geo[c].bounds), r) {
      PrefixTrans(old(s.log) + [Changed(c, BoundsProp)], l1, s.log);
    }
  }

  // ---------------------------------------------------------------------------
  // AbstractResizableComponent.DirectionKeyHandler.

  const VK_LEFT := 37
  const VK_UP := 38
  const VK_RIGHT := 39
  const VK_DOWN := 40

  predicate IsArrow(code: int) { code in {VK_LEFT, VK_UP, VK_RIGHT, VK_DOWN} }

  /** The snapping step of keyPressed as written, for one coordinate a and
      the grid spacing g: a step back (UP, LEFT) is `a--` then
      `a -= a % g`; a step forward (DOWN, RIGHT) adds `a % g`, or g when that
      is 0. A spacing of 0 leaves the coordinate as it is. */
  function SnapStepAsWritten(a: int, g: int, forward: bool): int {
    if g == 0 then a
    else if forward then (if JavaRem(a, g) == 0 then a + g else a + JavaRem(a, g))
    else SnapTowardZero(a - 1, g)
  }

  /** As written, a forward snap from a coordinate off the grid adds its
      distance from the grid line behind it rather than the distance to the
      grid line ahead: RIGHT from x = 5 with the default spacing 16 goes to
      10, which is not on the grid, instead of 16. */
  lemma SnapForwardMissesGrid()
    ensures SnapStepAsWritten(5, 16, true) == 10 && JavaRem(10, 16) != 0
  {
  }

  /** The snapping step the key handler is evidently meant to take: to the
      nearest grid line strictly behind or strictly ahead of a. A spacing of
      0 leaves the coordinate as it is. */
  function SnapStep(a: int, g: int, forward: bool): (r: int)
    ensures g != 0 && forward ==> a < r <= a + Abs(g) && r % Abs(g) == 0
    ensures g != 0 && !forward ==> a - Abs(g) <= r < a && r % Abs(g) == 0
    ensures g == 0 ==> r == a
  {
    if g == 0 then a
    else
      var m := Abs(g);
      GridNeighbours(a, m);
      if forward then a + (m - a % m) else (a - 1) - (a - 1) % m
  }

  /** For a positive spacing, backward steps from positive coordinates and
      forward steps from grid lines at or above 0 are the same as written and
      as intended. */
  lemma SnapStepAgrees(a: int, g: int, forward: bool)
    requires g > 0
    requires (!forward && a >= 1) || (forward && a >= 0 && JavaRem(a, g) == 0)
    ensures SnapStepAsWritten(a, g, forward) == SnapStep(a, g, forward)
  {
    JavaDivRem(a, g);
    JavaDivRem(a - 1, g);
  }

  /** The backward step as written from a coordinate at or below 0 does not
      move back: UP from y = 0 with the default spacing 16 stays at 0, and
      LEFT from x = -5 moves forward to 0. The forward step from a negative
      coordinate off the grid moves back: DOWN from y = -5 goes to -10. */
  lemma SnapStepWrongWay()
    ensures SnapStepAsWritten(0, 16, false) == 0
    ensures SnapStepAsWritten(-5, 16, false) == 0
    ensures SnapStepAsWritten(-5, 16, true) == -10
  {
  }

  /** Where the snapping step as written goes, for a spacing g other than 0.
      Backward, it snaps a - 1 towards zero: onto the grid, and strictly
      back only from a >= 1 or when a - 1 is itself on the grid. Forward,
      it moves one spacing from a grid line, and otherwise by less than a
      spacing away from zero: ahead from a > 0, back from a < 0. */
  lemma SnapStepAsWrittenMoves(a: int, g: int, forward: bool)
    requires g != 0
    ensures var r := SnapStepAsWritten(a, g, forward);
      (!forward ==> JavaRem(r, g) == 0
                    && (a >= 1 ==> a - Abs(g) <= r < a)
                    && (a <= 0 ==> a - 1 <= r < a - 1 + Abs(g) && (r < a <==> JavaRem(a - 1, g) == 0)))
      && (forward ==> (JavaRem(a, g) == 0 ==> r == a + g)
                      && (JavaRem(a, g) != 0 && a > 0 ==> a < r < a + Abs(g))
                      && (JavaRem(a, g) != 0 && a < 0 ==> a - Abs(g) < r < a))
  {
    SnapOnGrid(a - 1, g);
    JavaDivRem(a, g);
    JavaDivRem(a - 1, g);
  }

  /** The location keyPressed asks for, as written: nothing moves for a
      component without a panel; otherwise the arrow moves one unit, or
      with snapping on takes SnapStepAsWritten (UP and DOWN on the
      horizontal grid spacing, LEFT and RIGHT on the vertical one). */
  function NudgeTarget(code: int, b: Rect, panel: bool, snap: bool, hSpacing: int, vSpacing: int): (p: Point)
    requires IsArrow(code)
    ensures !panel ==> p == Point(b.x, b.y)
    ensures panel && !snap ==>
      p == Point(b.x + (if code == VK_RIGHT then 1 else if code == VK_LEFT then -1 else 0),
                 b.y + (if code == VK_DOWN then 1 else if code == VK_UP then -1 else 0))
    ensures code in {VK_UP, VK_DOWN} ==> p.x == b.x
    ensures code in {VK_LEFT, VK_RIGHT} ==> p.y == b.y
  {
    if !panel then Point(b.x, b.y)
    else if code == VK_UP then Point(b.x, if snap then SnapStepAsWritten(b.y, hSpacing, false) else b.y - 1)
    else if code == VK_DOWN then Point(b.x, if snap then SnapStepAsWritten(b.y, hSpacing, true) else b.y + 1)
    else if code == VK_LEFT then Point(if snap then SnapStepAsWritten(b.x, vSpacing, false) else b.x - 1, b.y)
    else Point(if snap then SnapStepAsWritten(b.x, vSpacing, true) else b.x + 1, b.y)
  }

  /** The snapped nudge as written, for spacings other than 0: UP and LEFT
      land on the grid, moving strictly back from a coordinate of at least 1
      and otherwise only when the coordinate less one is on the grid; DOWN
      and RIGHT move one spacing from a grid line and otherwise less than a
      spacing away from zero. */
  lemma NudgeAsWritten(code: int, b: Rect, hSpacing: int, vSpacing: int)
    requires IsArrow(code) && hSpacing != 0 && vSpacing != 0
    ensures var p := NudgeTarget(code, b, true, true, hSpacing, vSpacing);
      (code == VK_UP ==> JavaRem(p.y, hSpacing) == 0
                         && (b.y >= 1 ==> b.y - Abs(hSpacing) <= p.y < b.y)
                         && (b.y <= 0 ==> (p.y < b.y <==> JavaRem(b.y - 1, hSpacing) == 0)))
      && (code == VK_LEFT ==> JavaRem(p.x, vSpacing) == 0
                              && (b.x >= 1 ==> b.x - Abs(vSpacing) <= p.x < b.x)
                              && (b.x <= 0 ==> (p.x < b.x <==> JavaRem(b.x - 1, vSpacing) == 0)))
      && (code == VK_DOWN ==> (JavaRem(b.y, hSpacing) == 0 ==> p.y == b.y + hSpacing)
                              && (JavaRem(b.y, hSpacing) != 0 && b.y > 0 ==> b.y < p.y < b.y + Abs(hSpacing))
                              && (JavaRem(b.y, hSpacing) != 0 && b.y < 0 ==> p.y < b.y))
      && (code == VK_RIGHT ==> (JavaRem(b.x, vSpacing) == 0 ==> p.x == b.x + vSpacing)
                               && (JavaRem(b.x, vSpacing) != 0 && b.x > 0 ==> b.x < p.x < b.x + Abs(vSpacing))
                               && (JavaRem(b.x, vSpacing) != 0 && b.x < 0 ==> p.x < b.x))
  {
    if code in {VK_UP, VK_DOWN} {
      SnapStepAsWrittenMoves(b.y, hSpacing, code == VK_DOWN);
    } else {
      SnapStepAsWrittenMoves(b.x, vSpacing, code == VK_RIGHT);
    }
  }

  /** The location keyPressed evidently means to ask for: as NudgeTarget,
      with the snapping step of SnapStep. */
  function NudgeTargetIntended(code: int, b: Rect, panel: bool, snap: bool, hSpacing: int, vSpacing: int): (p: Point)
    requires IsArrow(code)
    ensures !panel || !snap ==> p == NudgeTarget(code, b, panel, snap, hSpacing, vSpacing)
  {
    if !panel || !snap then NudgeTarget(code, b, panel, snap, hSpacing, vSpacing)
    else if code == VK_UP then Point(b.x, SnapStep(b.y, hSpacing, false))
    else if code == VK_DOWN then Point(b.x, SnapStep(b.y, hSpacing, true))
    else if code == VK_LEFT then Point(SnapStep(b.x, vSpacing, false), b.y)
    else Point(SnapStep(b.x, vSpacing, true), b.y)
  }

  /** With a panel and snapping on, the intended nudge moves the component
      strictly in the arrow's direction onto a grid line no more than one
      spacing away (for a spacing other than 0). */
  lemma NudgeOnGrid(code: int, b: Rect, hSpacing: int, vSpacing: int)
    requires IsArrow(code) && hSpacing != 0 && vSpacing != 0
    ensures var p := NudgeTargetIntended(code, b, true, true, hSpacing, vSpacing);
      (code == VK_UP ==> b.y - Abs(hSpacing) <= p.y < b.y && p.y % Abs(hSpacing) == 0)
      && (code == VK_DOWN ==> b.y < p.y <= b.y + Abs(hSpacing) && p.y % Abs(hSpacing) == 0)
      && (code == VK_LEFT ==> b.x - Abs(vSpacing) <= p.x < b.x && p.x % Abs(vSpacing) == 0)
      && (code == VK_RIGHT ==> b.x < p.x <= b.x + Abs(vSpacing) && p.x % Abs(vSpacing) == 0)
  {
  }

  /** With positive spacings the nudge as written and the intended one
      agree on UP and LEFT from coordinates of at least 1, and on DOWN and
      RIGHT from grid lines at or above 0. */
  lemma NudgeAgrees(code: int, b: Rect, hSpacing: int, vSpacing: int)
    requires IsArrow(code) && hSpacing > 0 && vSpacing > 0
    requires code == VK_UP ==> b.y >= 1
    requires code == VK_LEFT ==> b.x >= 1
    requires code == VK_DOWN ==> b.y >= 0 && JavaRem(b.y, hSpacing) == 0
    requires code == VK_RIGHT ==> b.x >= 0 && JavaRem(b.x, vSpacing) == 0
    ensures NudgeTarget(code, b, true, true, hSpacing, vSpacing)
            == NudgeTargetIntended(code, b, true, true, hSpacing, vSpacing)
  {
    if code in {VK_UP, VK_DOWN} {
      SnapStepAgrees(b.y, hSpacing, code == VK_DOWN);
    } else {
      SnapStepAgrees(b.x, vSpacing, code == VK_RIGHT);
    }
  }

  /** DirectionKeyHandler.keyPressed on the resizable component c of the
      panel p: an arrow key asks setLocation for NudgeTarget's location,
      as written; any other key does nothing. */
  method KeyPressed(p: ComponentPanel, c: Id, code: int, fuel: nat) returns (o: Outcome)
    requires p.scene.Sound() && c in p.scene.nodes && IsResizable(p.scene.nodes[c].kind)
    modifies p.scene`geo, p.scene`valid, p.scene`log
    ensures o.Thrown? ==> o == Thrown(StackOverflow)
    ensures SetterFrame(p.scene)
    ensures !IsArrow(code) ==> o == Normal && unchanged(p.scene)
    ensures IsArrow(code) ==>
      var t := NudgeTarget(code, old(p.scene.geo[c].bounds), PanelOf(p.scene.nodes, p.scene.rank, c),
                           p.snap, p.hGridSpacing, p.vGridSpacing);
      p.scene.geo == old(p.scene.geo)[c := old(p.scene.geo[c]).(bounds := MovedTo(p.scene.nodes[c], old(p.scene.geo[c].bounds), t.x, t.y))]
  {
    var s := p.scene;
    if !IsArrow(code) {
      return Normal;
    }
    var t := NudgeTarget(code, s.geo[c].bounds, PanelOf(s.nodes, s.rank, c), p.snap, p.hGridSpacing, p.vGridSpacing);
    o := SetLocation(s, c, t.x, t.y, fuel);
  }
}
