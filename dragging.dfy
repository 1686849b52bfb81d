/**
 * Dragging and handles: the press, drag and release handlers of
 * DefaultDraggableComponent, the active-handle updates of DefaultHandle's
 * mouse handler, and the per-anchor resize of its motion handler.
 */
module Dragging {
  import opened Outcomes
  import opened Seqs
  import opened Geometry
  import opened Nodes
  import opened Graph
  import opened Walks
  import opened Panels
  import opened Resizing
  import opened Layouts
  import opened Connections
  import opened Structure
  import opened Components

  // ---------------------------------------------------------------------------
  // The arithmetic of a drag.

  /** DraggableComponent.UNSET_OFFSET_VALUE. */
  const UNSET_OFFSET := -1

  /** `v - v % s` when snapping, with Java's remainder; `v` otherwise. A zero
      spacing does not snap. */
  function Snap(v: int, on: bool, s: int): (r: int)
    ensures !on || s == 0 ==> r == v
    ensures on && s != 0 ==> JavaRem(r, s) == 0 && (v >= 0 ==> v - Abs(s) < r <= v) && (v < 0 ==> v <= r < v + Abs(s))
  {
    if on && s != 0 then SnapOnGrid(v, s); SnapTowardZero(v, s) else v
  }

  /** `v % s` when snapping, and 0 otherwise: what the handle drag moves an
      edge by to bring it onto the grid. */
  function Excess(v: int, on: bool, s: int): (r: int)
    ensures v - r == Snap(v, on, s)
  {
    if on && s != 0 then JavaRem(v, s) else 0
  }

  /** The location mouseDragged asks for: the mouse point less the offsets
      recorded at the press, with x snapped on the vertical grid spacing and
      y on the horizontal one. */
  function DragTarget(ex: int, ey: int, offX: int, offY: int, snap: bool, hSpacing: int, vSpacing: int): (p: Point)
    ensures !snap ==> p == Point(ex - offX, ey - offY)
    ensures p.x == Snap(ex - offX, snap, vSpacing) && p.y == Snap(ey - offY, snap, hSpacing)
  {
    Point(Snap(ex - offX, snap, vSpacing), Snap(ey - offY, snap, hSpacing))
  }

  /** A press at (px, py) on a component at (x, y) records the offsets
      (px - x, py - y); a later drag to (px + dx, py + dy) without snapping
      then asks for (x + dx, y + dy): the component follows the mouse. */
  lemma DragFollowsMouse(x: int, y: int, px: int, py: int, dx: int, dy: int, hSpacing: int, vSpacing: int)
    ensures DragTarget(px + dx, py + dy, px - x, py - y, false, hSpacing, vSpacing) == Point(x + dx, y + dy)
  {
  }

  /** With snapping on and non-zero spacings, the drag asks for a point on
      the grid, less than one spacing from the unsnapped target, toward zero. */
  lemma DragTargetOnGrid(ex: int, ey: int, offX: int, offY: int, hSpacing: int, vSpacing: int)
    requires hSpacing != 0 && vSpacing != 0
    ensures var p := DragTarget(ex, ey, offX, offY, true, hSpacing, vSpacing);
      JavaRem(p.x, vSpacing) == 0 && JavaRem(p.y, hSpacing) == 0
      && Abs(p.x - (ex - offX)) < Abs(vSpacing) && Abs(p.y - (ey - offY)) < Abs(hSpacing)
  {
  }

  // ---------------------------------------------------------------------------
  // DefaultHandle's resize.

  /** The members DefaultHandle's motion handler reads that no class of the
      toolkit defines: the active handle's coordinate (None when the active
      handle or its coordinate is null), the offsets recorded at the press,
      the snap settings and the minimum and maximum bounds. */
  datatype HandleInputs = HandleInputs(
    active: Option<Coordinate>,
    offX: int, offY: int, offW: int, offH: int,
    snap: bool, hSpacing: int, vSpacing: int,
    minX: int, maxX: int, minY: int, maxY: int,
    minW: int, maxW: int, minH: int, maxH: int)

  /** The bounds the switch of mouseDragged computes for the anchor k from
      the current bounds b and the mouse point (ex, ey), before the min/max
      check. */
  function AnchorTarget(k: Coordinate, b: Rect, ex: int, ey: int, hi: HandleInputs): (r: Rect)
    ensures k == Center ==> r.w == b.w && r.h == b.h
    ensures k in {NorthWest, North, NorthEast} ==> r.y + r.h == b.y + b.h
    ensures k in {NorthWest, West, SouthWest} ==> r.x + r.w == b.x + b.w
    ensures k == East ==> r.x == b.x && r.y == b.y && r.h == b.h
    ensures k == South ==> r.x == b.x && r.y == b.y && r.w == b.w
    ensures k == North ==> r.x == b.x && r.w == b.w
    ensures k == West ==> r.y == b.y && r.h == b.h
    ensures k in {NorthEast, SouthEast} ==> r.x == b.x
    ensures k in {SouthEast, SouthWest} ==> r.y == b.y
  {
    var sn, hs, vs := hi.snap, hi.hSpacing, hi.vSpacing;
    var x, y := ex - hi.offX, ey - hi.offY;
    var w, h := ex - b.x + hi.offW, ey - b.y + hi.offH;
    match k
    case Center => Rect(Snap(x, sn, vs), Snap(y, sn, hs), b.w, b.h)
    case NorthWest =>
      var xd, yd := Excess(x, sn, vs), Excess(y, sn, hs);
      Rect(x - xd, y - yd, b.w + (b.x - x) + xd, b.h + (b.y - y) + yd)
    case North =>
      var yd := Excess(y, sn, hs);
      Rect(b.x, y - yd, b.w, b.h + (b.y - y) + yd)
    case NorthEast =>
      var yd := Excess(y, sn, hs);
      Rect(b.x, y - yd, Snap(w, sn, vs), b.h + (b.y - y) + yd)
    case East => Rect(b.x, b.y, Snap(w, sn, vs), b.h)
    case SouthEast => Rect(b.x, b.y, Snap(w, sn, vs), Snap(h, sn, hs))
    case South => Rect(b.x, b.y, b.w, Snap(h, sn, hs))
    case SouthWest =>
      var xd := Excess(x, sn, vs);
      Rect(x - xd, b.y, b.w + (b.x - x) + xd, Snap(h, sn, hs))
    case West =>
      var xd := Excess(x, sn, vs);
      Rect(x - xd, b.y, b.w + (b.x - x) + xd, b.h)
  }

  /** The x/width pair of t is within the minimum and maximum bounds. */
  predicate FitsX(t: Rect, hi: HandleInputs) {
    hi.minX <= t.x <= hi.maxX && hi.minW <= t.w <= hi.maxW
  }

  /** The y/height pair of t is within the minimum and maximum bounds. */
  predicate FitsY(t: Rect, hi: HandleInputs) {
    hi.minY <= t.y <= hi.maxY && hi.minH <= t.h <= hi.maxH
  }

  /** The bounds mouseDragged passes to setBounds: the anchor's target, with
      the x/width pair back at its current values when either is out of
      bounds, and the y/height pair checked and put back on its own. */
  function HandleResize(k: Coordinate, b: Rect, ex: int, ey: int, hi: HandleInputs): (r: Rect)
    ensures var t := AnchorTarget(k, b, ex, ey, hi);
      (r.x, r.w) == (if FitsX(t, hi) then (t.x, t.w) else (b.x, b.w))
      && (r.y, r.h) == (if FitsY(t, hi) then (t.y, t.h) else (b.y, b.h))
  {
    var t := AnchorTarget(k, b, ex, ey, hi);
    var (x, w) := if FitsX(t, hi) then (t.x, t.w) else (b.x, b.w);
    var (y, h) := if FitsY(t, hi) then (t.y, t.h) else (b.y, b.h);
    Rect(x, y, w, h)
  }

  /** What the resize promises for each anchor, whether or not a pair is put
      back: CENTER keeps the size; NORTH, NORTH_WEST and NORTH_EAST keep the
      bottom edge; WEST, NORTH_WEST and SOUTH_WEST keep the right edge; EAST
      changes the width alone and SOUTH the height alone; and every pair
      that changes lands within its bounds. */
  lemma HandleResizeSpec(k: Coordinate, b: Rect, ex: int, ey: int, hi: HandleInputs)
    ensures var r := HandleResize(k, b, ex, ey, hi);
      (k == Center ==> r.w == b.w && r.h == b.h)
      && (k in {NorthWest, North, NorthEast} ==> r.y + r.h == b.y + b.h)
      && (k in {NorthWest, West, SouthWest} ==> r.x + r.w == b.x + b.w)
      && (k == East ==> r.x == b.x && r.y == b.y && r.h == b.h)
      && (k == South ==> r.x == b.x && r.y == b.y && r.w == b.w)
      && ((r.x, r.w) != (b.x, b.w) ==> FitsX(r, hi))
      && ((r.y, r.h) != (b.y, b.h) ==> FitsY(r, hi))
  {
    var t := AnchorTarget(k, b, ex, ey, hi);
    var r := HandleResize(k, b, ex, ey, hi);
    assert (r.x, r.w) == (t.x, t.w) || (r.x, r.w) == (b.x, b.w);
    assert (r.y, r.h) == (t.y, t.h) || (r.y, r.h) == (b.y, b.h);
  }

  /** A SOUTH_EAST drag without snapping, from a press that recorded the
      width and height offsets, sets the size to the mouse point less the
      location plus those offsets, within bounds. */
  lemma SouthEastFollowsMouse(b: Rect, ex: int, ey: int, hi: HandleInputs)
    requires !hi.snap
    requires FitsX(Rect(b.x, b.y, ex - b.x + hi.offW, 0), hi)
    requires FitsY(Rect(b.x, b.y, 0, ey - b.y + hi.offH), hi)
    ensures HandleResize(SouthEast, b, ex, ey, hi) == Rect(b.x, b.y, ex - b.x + hi.offW, ey - b.y + hi.offH)
  {
  }

  // ---------------------------------------------------------------------------
  // DefaultDraggableComponent's handlers.

  /** The store with c's drag fields replaced: the offsets recorded at the
      press, the snap flag and the grid spacings. */
  function WithDragState(m: Store, c: Id, offX: int, offY: int, snap: bool, hSpacing: int, vSpacing: int): (r: Store)
    requires c in m
    ensures r.Keys == m.Keys
  {
    Restyled(m, c, m[c].a.(offX := offX, offY := offY, snap := snap, hSpacing := hSpacing, vSpacing := vSpacing))
  }

  /** The fields of a component that a drag reads: its flags, its shadow,
      the offsets of the press and the snap settings. */
  function DragFields(a: Attrs): (set<Flag>, Option<Id>, int, int, bool, int, int) {
    (a.on, a.shadow, a.offX, a.offY, a.snap, a.hSpacing, a.vSpacing)
  }

  /** The fields a drag reads agree in m and m'. */
  predicate DragKept(m: Store, m': Store) {
    m'.Keys == m.Keys && forall d | d in m :: DragFields(m'[d].a) == DragFields(m[d].a)
  }

  lemma DragKeptTrans(m1: Store, m2: Store, m3: Store)
    requires DragKept(m1, m2) && DragKept(m2, m3)
    ensures DragKept(m1, m3)
  {
  }

  /** A new component value with the same drag fields keeps them all. */
  lemma DragKeptAt(m: Store, c: Id, n: Node)
    requires c in m && DragFields(n.a) == DragFields(m[c].a)
    ensures DragKept(m, m[c := n])
  {
  }

  /** Re-parenting writes links, panel fields and handle lists alone: what
      addComponent does to the store keeps the drag fields. */
  lemma RelinkDragKept(m: Store, x: Id, i: nat, c: Id)
    requires x in m && c in m && i <= |m[x].w.children|
    ensures DragKept(m, NoteHandle(m, x, c)) && DragKept(m, Addition(m, x, i, c))
  {
    if Tracks(m, x, c) {
      DragKeptAt(m, x, m[x].(a := m[x].a.(handles := m[x].a.handles + [c])));
    }
    var m1 := WithParent(m, c, Some(x));
    DragKeptAt(m, c, m[c].(w := m[c].w.(parent := Some(x))));
    var m2 := WithoutPanel(m1, c);
    DragKeptAt(m1, c, m1[c].(a := m1[c].a.(panel := false)));
    var m3 := WithChildren(m2, x, InsertAt(m[x].w.children, i, c));
    DragKeptAt(m2, x, m2[x].(w := m2[x].w.(children := InsertAt(m[x].w.children, i, c))));
    DragKeptTrans(m, m1, m2);
    DragKeptTrans(m, m2, m3);
    if Tracks(m3, x, c) {
      DragKeptAt(m3, x, m3[x].(a := m3[x].a.(handles := m3[x].a.handles + [c])));
    }
    DragKeptTrans(m, m3, Addition(m, x, i, c));
  }

  /** removeComponent keeps the drag fields. */
  lemma DetachDragKept(m: Store, c: Id)
    requires c in m
    ensures DragKept(m, Detached(m, c))
  {
    var q := m[c].w.parent;
    if q.Some? && q.value in m && c in m[q.value].w.children && m[q.value].w.children[IndexOf(m[q.value].w.children, c)] in m {
      var x := q.value;
      var j := IndexOf(m[x].w.children, c);
      var d := m[x].w.children[j];
      var m1 := WithChildren(m, x, RemoveAt(m[x].w.children, j));
      DragKeptAt(m, x, m[x].(w := m[x].w.(children := RemoveAt(m[x].w.children, j))));
      var m2 := WithParent(m1, d, None);
      DragKeptAt(m1, d, m1[d].(w := m1[d].w.(parent := None)));
      DragKeptTrans(m, m1, m2);
      if Tracks(m2, x, d) {
        DragKeptAt(m2, x, m2[x].(a := m2[x].a.(handles := Remove(m2[x].a.handles, d))));
      }
      DragKeptTrans(m, m2, Detached(m, c));
    }
  }

  /** The write of c's drag fields. */
  method PutDragState(s: Scene, c: Id, offX: int, offY: int, snap: bool, hSpacing: int, vSpacing: int)
    requires s.Valid() && c in s.nodes
    modifies s`nodes
    ensures s.Valid() && ShapeOf(s.nodes) == ShapeOf(old(s.nodes)) && KindsKept(old(s.nodes), s.nodes)
    ensures s.nodes == WithDragState(old(s.nodes), c, offX, offY, snap, hSpacing, vSpacing)
  {
    RestyleKeeps(s.nodes, s.geo, s.rank, s.next, s.valid, c,
                 s.nodes[c].a.(offX := offX, offY := offY, snap := snap, hSpacing := hSpacing, vSpacing := vSpacing));
    s.nodes := WithDragState(s.nodes, c, offX, offY, snap, hSpacing, vSpacing);
  }

  /** The drag fields a press at (ex, ey) leaves on a component whose fields
      were a0 and whose bounds are b: the offsets of the mouse from the
      component's corner; with a panel (inPanel), the panel's snap flag,
      and the panel's spacings when that flag is on; otherwise the old
      values. */
  predicate PressedFields(a: Attrs, a0: Attrs, b: Rect, ex: int, ey: int, inPanel: bool, snap: bool, hSpacing: int, vSpacing: int) {
    a.offX == ex - b.x && a.offY == ey - b.y
    && a.snap == (if inPanel then snap else a0.snap)
    && (a.hSpacing, a.vSpacing) == (if inPanel && snap then (hSpacing, vSpacing) else (a0.hSpacing, a0.vSpacing))
  }

  /** The first half of mousePressed: the offsets, and the snap settings
      copied from a reachable panel. */
  method PressOffsets(p: ComponentPanel, c: Id, ex: int, ey: int) returns (inPanel: bool)
    requires p.Valid() && c in p.scene.nodes
    modifies p.scene`nodes
    ensures p.Valid() && ShapeOf(p.scene.nodes) == ShapeOf(old(p.scene.nodes))
    ensures inPanel == PanelOf(old(p.scene.nodes), p.scene.rank, c)
    ensures PressedFields(p.scene.nodes[c].a, old(p.scene.nodes[c].a), p.scene.geo[c].bounds, ex, ey,
                          inPanel, p.snap, p.hGridSpacing, p.vGridSpacing)
    ensures p.scene.nodes[c].a.on == old(p.scene.nodes[c].a.on) && p.scene.nodes[c].a.shadow == old(p.scene.nodes[c].a.shadow)
  {
    var s := p.scene;
    var b := s.geo[c].bounds;
    var a := s.nodes[c].a;
    inPanel := PanelOf(s.nodes, s.rank, c);
    var sn, hs, vs := a.snap, a.hSpacing, a.vSpacing;
    if inPanel {
      sn := p.snap;
      if sn {
        hs, vs := p.hGridSpacing, p.vGridSpacing;
      }
    }
    PutDragState(s, c, ex - b.x, ey - b.y, sn, hs, vs);
    PanelOkKinds(p.roots, p.FixedRoots(), old(s.nodes), s.nodes, p.state.Snapshot());
  }

  /** The shadow's setBounds in mousePressed: the shadow takes the
      component's bounds, as far as its gating lets it. */
  method SizeShadow(p: ComponentPanel, c: Id, sh: Id, fuel: nat) returns (o: Outcome)
    requires p.Valid() && c in p.scene.nodes && p.scene.nodes[c].a.shadow == Some(sh)
    modifies p.scene`geo, p.scene`valid, p.scene`log
    ensures p.Valid() && sh in p.scene.nodes
    ensures o.Thrown? ==> o == Thrown(StackOverflow)
    ensures o.Normal? ==>
      p.scene.geo[sh].bounds == BoundsAfter(p.scene.nodes[sh], old(p.scene.geo[sh].bounds), old(p.scene.geo[c].bounds))
  {
    var s := p.scene;
    assert ShadowOk(s.nodes, s.nodes[c].a.shadow);
    o := SetBounds(s, sh, s.geo[c].bounds, fuel);
  }

  /** The shadow part of mousePressed, with a panel and real-time dragging
      off: a null shadow throws; otherwise the shadow takes the component's
      bounds and is added to the drag root, whose child it is afterwards. */
  method PressShadow(p: ComponentPanel, c: Id, fuel: nat) returns (o: Outcome)
    requires p.Valid() && c in p.scene.nodes
    modifies p.scene`nodes, p.scene`rank, p.scene`geo, p.scene`valid, p.scene`log
    ensures p.Valid() && KindsKept(old(p.scene.nodes), p.scene.nodes)
    ensures o != Thrown(StackOverflow) ==> DragKept(old(p.scene.nodes), p.scene.nodes)
    ensures old(p.scene.nodes[c].a.shadow).None? ==> o == Thrown(NullPointer) && unchanged(p.scene)
    ensures var sh := old(p.scene.nodes[c].a.shadow);
      sh.Some? && sh.value != p.DRAG_ROOT && o.Normal? ==> p.scene.nodes[sh.value].w.parent == Some(p.DRAG_ROOT)
  {
    var s := p.scene;
    var sh := s.nodes[c].a.shadow;
    if sh.None? {
      return Thrown(NullPointer);
    }
    o := SizeShadow(p, c, sh.value, fuel);
    if o.Thrown? {
      return;
    }
    o := JoinDragRoot(p, sh.value, fuel);
  }

  /** DRAG_ROOT.addComponent(shadow). */
  method JoinDragRoot(p: ComponentPanel, sh: Id, fuel: nat) returns (o: Outcome)
    requires p.Valid() && sh in p.scene.nodes
    modifies p.scene`nodes, p.scene`rank, p.scene`geo, p.scene`valid, p.scene`log
    ensures p.Valid() && KindsKept(old(p.scene.nodes), p.scene.nodes)
    ensures o != Thrown(StackOverflow) ==> DragKept(old(p.scene.nodes), p.scene.nodes)
    ensures sh != p.DRAG_ROOT && o.Normal? ==> p.scene.nodes[sh].w.parent == Some(p.DRAG_ROOT)
  {
    var s := p.scene;
    var x := p.DRAG_ROOT;
    ghost var m0 := s.nodes;
    ghost var rank0 := s.rank;
    assert x in p.FixedRoots();
    var i := |s.nodes[x].w.children|;
    o := AddComponent(s, p.ViewOf(), x, i, Some(sh), fuel);
    PanelOkKinds(p.roots, p.FixedRoots(), m0, s.nodes, p.state.Snapshot());
    if o != Thrown(StackOverflow) {
      RelinkDragKept(m0, x, i, sh);
      if sh !in m0[x].w.children {
        DetachDragKept(m0, sh);
        DetachedKeepsOthers(m0, rank0, sh, x);
        RelinkDragKept(Detached(m0, sh), x, i, sh);
        DragKeptTrans(m0, Detached(m0, sh), Addition(Detached(m0, sh), x, i, sh));
      }
    }
    if sh != x && o.Normal? {
      JoinedDragRoot(m0, s.nodes, rank0, x, i, sh);
    }
  }

  /** After addComponent of sh on x, sh's parent is x. */
  lemma JoinedDragRoot(m0: Store, m1: Store, rank: map<Id, nat>, x: Id, i: nat, sh: Id)
    requires x in m0 && sh in m0 && sh != x && ValidShape(ShapeOf(m0), rank)
    requires sh in m0[x].w.children ==> m1 == NoteHandle(m0, x, sh)
    requires sh !in m0[x].w.children ==> i <= |m0[x].w.children| && m1 == Addition(Detached(m0, sh), x, i, sh)
    ensures sh in m1 && m1[sh].w.parent == Some(x)
  {
    if sh in m0[x].w.children {
      ChildNotSelf(m0, rank, x, sh);
    } else {
      DetachedKeepsOthers(m0, rank, sh, x);
      AdditionLinks(Detached(m0, sh), x, i, sh);
    }
  }

  /** The panel's part of the invariant survives a store with the same
      components of the same classes. */
  lemma PanelOkKinds(roots: seq<Id>, fixed: set<Id>, m: Store, m': Store, h: Holders)
    requires PanelOk(roots, fixed, m, h) && KindsKept(m, m')
    ensures PanelOk(roots, fixed, m', h)
  {
  }

  /** DraggableComponentStateMouseHandler.mousePressed at (ex, ey) on the
      draggable c of panel p: the drag fields as PressedFields says; with a
      panel and real-time dragging off, the shadow part as PressShadow says;
      otherwise nothing else changes. */
  method DragPressed(p: ComponentPanel, c: Id, ex: int, ey: int, fuel: nat) returns (o: Outcome)
    requires p.Valid() && c in p.scene.nodes && IsDraggable(p.scene.nodes[c].kind)
    modifies p.scene`nodes, p.scene`rank, p.scene`geo, p.scene`valid, p.scene`log
    ensures p.Valid() && KindsKept(old(p.scene.nodes), p.scene.nodes)
    ensures o != Thrown(StackOverflow) ==>
      PressedFields(p.scene.nodes[c].a, old(p.scene.nodes[c].a), old(p.scene.geo[c].bounds), ex, ey,
                    old(PanelOf(p.scene.nodes, p.scene.rank, c)), p.snap, p.hGridSpacing, p.vGridSpacing)
      && p.scene.nodes[c].a.on == old(p.scene.nodes[c].a.on)
    ensures !old(PanelOf(p.scene.nodes, p.scene.rank, c)) || old(p.scene.nodes[c].Is(RealTime)) ==>
      o == Normal && p.scene.geo == old(p.scene.geo) && p.scene.valid == old(p.scene.valid) && p.scene.log == old(p.scene.log)
    ensures old(PanelOf(p.scene.nodes, p.scene.rank, c)) && !old(p.scene.nodes[c].Is(RealTime)) && old(p.scene.nodes[c].a.shadow).None? ==>
      o == Thrown(NullPointer)
    ensures var sh := old(p.scene.nodes[c].a.shadow);
      old(PanelOf(p.scene.nodes, p.scene.rank, c)) && !old(p.scene.nodes[c].Is(RealTime)) && sh.Some? && sh.value != p.DRAG_ROOT && o.Normal? ==>
        p.scene.nodes[sh.value].w.parent == Some(p.DRAG_ROOT)
  {
    ghost var m0 := p.scene.nodes;
    var inPanel := PressOffsets(p, c, ex, ey);
    ghost var m1 := p.scene.nodes;
    if !inPanel || p.scene.nodes[c].Is(RealTime) {
      return Normal;
    }
    o := PressShadow(p, c, fuel);
    if o != Thrown(StackOverflow) {
      assert DragFields(p.scene.nodes[c].a) == DragFields(m1[c].a);
    }
  }

  /** The drag fields mouseReleased leaves: the offsets unset, snapping off
      and both spacings 0. */
  predicate ReleasedFields(a: Attrs) {
    a.offX == UNSET_OFFSET && a.offY == UNSET_OFFSET && !a.snap && a.hSpacing == 0 && a.vSpacing == 0
  }

  /** The shadow's parent.removeComponent(shadow) in mouseReleased. */
  method UnparentShadow(p: ComponentPanel, sh: Id, fuel: nat) returns (o: Outcome)
    requires p.Valid() && sh in p.scene.nodes
    modifies p.scene`nodes, p.scene`geo, p.scene`valid, p.scene`log
    ensures p.Valid() && KindsKept(old(p.scene.nodes), p.scene.nodes)
    ensures o.Thrown? ==> o == Thrown(StackOverflow)
    ensures o.Normal? ==> DragKept(old(p.scene.nodes), p.scene.nodes) && p.scene.nodes[sh].w.parent.None?
  {
    var s := p.scene;
    ghost var m0 := s.nodes;
    o := Detach(s, p.ViewOf(), sh, fuel);
    PanelOkKinds(p.roots, p.FixedRoots(), m0, s.nodes, p.state.Snapshot());
    if o.Normal? {
      DetachDragKept(m0, sh);
      DetachedShape(m0, s.rank, sh);
    }
  }

  /** The shadow part of mouseReleased: the shadow leaves its parent, and c
      moves to where the shadow then is. */
  method DropShadow(p: ComponentPanel, c: Id, sh: Id, fuel: nat) returns (o: Outcome)
    requires p.Valid() && c in p.scene.nodes && sh in p.scene.nodes
    modifies p.scene`nodes, p.scene`geo, p.scene`valid, p.scene`log
    ensures p.Valid() && KindsKept(old(p.scene.nodes), p.scene.nodes)
    ensures o.Thrown? ==> o == Thrown(StackOverflow)
    ensures o.Normal? ==> DragKept(old(p.scene.nodes), p.scene.nodes) && p.scene.nodes[sh].w.parent.None?
    ensures o.Normal? && Movable in p.scene.nodes[c].a.on ==>
      p.scene.geo[c].bounds.x == p.scene.geo[sh].bounds.x && p.scene.geo[c].bounds.y == p.scene.geo[sh].bounds.y
  {
    o := UnparentShadow(p, sh, fuel);
    if o.Thrown? {
      return;
    }
    o := FollowShadow(p, c, sh, fuel);
  }

  /** setLocation(shadow.getX(), shadow.getY()) on c. */
  method FollowShadow(p: ComponentPanel, c: Id, sh: Id, fuel: nat) returns (o: Outcome)
    requires p.Valid() && c in p.scene.nodes && sh in p.scene.nodes
    modifies p.scene`geo, p.scene`valid, p.scene`log
    ensures p.Valid()
    ensures o.Thrown? ==> o == Thrown(StackOverflow)
    ensures Movable in p.scene.nodes[c].a.on ==>
      p.scene.geo[c].bounds.x == p.scene.geo[sh].bounds.x && p.scene.geo[c].bounds.y == p.scene.geo[sh].bounds.y
  {
    var s := p.scene;
    var b := s.geo[sh].bounds;
    o := SetLocation(s, c, b.x, b.y, fuel);
  }

  /** The first part of mouseReleased: setMouseDragging(false), then the
      drag fields reset. */
  method ResetDrag(p: ComponentPanel, c: Id)
    requires p.Valid() && c in p.scene.nodes && IsDraggable(p.scene.nodes[c].kind)
    modifies p.scene`nodes, p.scene`log
    ensures p.Valid() && KindsKept(old(p.scene.nodes), p.scene.nodes) && ShapeOf(p.scene.nodes) == ShapeOf(old(p.scene.nodes))
    ensures !p.scene.nodes[c].Is(Dragging) && ReleasedFields(p.scene.nodes[c].a)
    ensures forall f | f != Dragging :: p.scene.nodes[c].Is(f) == old(p.scene.nodes[c].Is(f))
    ensures p.scene.nodes[c].a.shadow == old(p.scene.nodes[c].a.shadow)
  {
    var s := p.scene;
    ghost var m0 := s.nodes;
    var _ := SetMouseDragging(s, c, false);
    ghost var m1 := s.nodes;
    assert !m1[c].Is(Dragging) && forall f | f != Dragging :: m1[c].Is(f) == m0[c].Is(f);
    PutDragState(s, c, UNSET_OFFSET, UNSET_OFFSET, false, 0, 0);
    assert s.nodes[c].a.on == m1[c].a.on;
    KindsKeptTrans(m0, m1, s.nodes);
    PanelOkKinds(p.roots, p.FixedRoots(), m0, s.nodes, p.state.Snapshot());
  }

  /** DraggableComponentStateMouseHandler.mouseReleased on the draggable c
      of panel p: c stops dragging and its drag fields are reset; without
      real-time dragging, a shadow leaves its parent and a movable c takes
      the shadow's location; otherwise nothing moves. */
  method DragReleased(p: ComponentPanel, c: Id, fuel: nat) returns (o: Outcome)
    requires p.Valid() && c in p.scene.nodes && IsDraggable(p.scene.nodes[c].kind)
    modifies p.scene`nodes, p.scene`geo, p.scene`valid, p.scene`log
    ensures p.Valid() && KindsKept(old(p.scene.nodes), p.scene.nodes)
    ensures o.Thrown? ==> o == Thrown(StackOverflow)
    ensures o.Normal? ==> !p.scene.nodes[c].Is(Dragging) && ReleasedFields(p.scene.nodes[c].a)
    ensures o.Normal? ==> forall f | f != Dragging :: p.scene.nodes[c].Is(f) == old(p.scene.nodes[c].Is(f))
    ensures old(p.scene.nodes[c].Is(RealTime)) || old(p.scene.nodes[c].a.shadow).None? ==>
      o == Normal && p.scene.geo == old(p.scene.geo) && p.scene.valid == old(p.scene.valid)
    ensures var sh := old(p.scene.nodes[c].a.shadow);
      !old(p.scene.nodes[c].Is(RealTime)) && sh.Some? && o.Normal? ==>
        p.scene.nodes[sh.value].w.parent.None?
        && (old(p.scene.nodes[c].Is(Movable)) ==>
              p.scene.geo[c].bounds.x == p.scene.geo[sh.value].bounds.x && p.scene.geo[c].bounds.y == p.scene.geo[sh.value].bounds.y)
  {
    var s := p.scene;
    ghost var m0 := s.nodes;
    ResetDrag(p, c);
    ghost var m1 := s.nodes;
    var sh := s.nodes[c].a.shadow;
    if s.nodes[c].Is(RealTime) || sh.None? {
      return Normal;
    }
    assert ShadowOk(s.nodes, s.nodes[c].a.shadow);
    assert m1[c].Is(Movable) == m0[c].Is(Movable);
    o := DropShadow(p, c, sh.value, fuel);
    KindsKeptTrans(m0, m1, s.nodes);
    if o.Normal? {
      assert DragFields(s.nodes[c].a) == DragFields(m1[c].a);
      assert s.nodes[c].a.on == m1[c].a.on;
    }
  }

  /** The first part of mouseDragged: a component not yet dragging starts
      to, which throws when dragging is disabled. */
  method StartDrag(p: ComponentPanel, c: Id) returns (o: Outcome)
    requires p.Valid() && c in p.scene.nodes && IsDraggable(p.scene.nodes[c].kind)
    modifies p.scene`nodes, p.scene`log
    ensures p.Valid() && KindsKept(old(p.scene.nodes), p.scene.nodes) && ShapeOf(p.scene.nodes) == ShapeOf(old(p.scene.nodes))
    ensures !old(p.scene.nodes[c].Is(Dragging)) && !old(p.scene.nodes[c].Is(DragEnabled)) <==> o == Thrown(IllegalState)
    ensures o.Thrown? ==> o == Thrown(IllegalState) && unchanged(p.scene)
    ensures o.Normal? ==> p.scene.nodes == WithFlag(old(p.scene.nodes), c, Dragging, true)
  {
    var s := p.scene;
    ghost var m0 := s.nodes;
    if !s.nodes[c].Is(Dragging) {
      o := SetMouseDragging(s, c, true);
      PanelOkKinds(p.roots, p.FixedRoots(), m0, s.nodes, p.state.Snapshot());
    } else {
      o := Normal;
      assert WithFlag(m0, c, Dragging, true) == m0 by {
        assert Toggled(m0[c].a.on, Dragging, true) == m0[c].a.on;
      }
    }
  }

  /** The move of mouseDragged to t: c itself with real-time dragging, else
      its shadow when there is one. */
  method DragMove(p: ComponentPanel, c: Id, t: Point, fuel: nat) returns (o: Outcome)
    requires p.Valid() && c in p.scene.nodes
    modifies p.scene`geo, p.scene`valid, p.scene`log
    ensures p.Valid()
    ensures o.Thrown? ==> o == Thrown(StackOverflow)
    ensures var a := p.scene.nodes[c].a;
      (RealTime in a.on ==>
         p.scene.geo == old(p.scene.geo)[c := old(p.scene.geo[c]).(bounds := MovedTo(p.scene.nodes[c], old(p.scene.geo[c].bounds), t.x, t.y))])
      && (RealTime !in a.on && a.shadow.Some? ==>
         a.shadow.value in old(p.scene.geo)
         && p.scene.geo == old(p.scene.geo)[a.shadow.value := old(p.scene.geo[a.shadow.value]).(bounds :=
              MovedTo(p.scene.nodes[a.shadow.value], old(p.scene.geo[a.shadow.value].bounds), t.x, t.y))])
      && (RealTime !in a.on && a.shadow.None? ==> o == Normal && unchanged(p.scene))
  {
    var s := p.scene;
    var a := s.nodes[c].a;
    if RealTime in a.on {
      o := SetLocation(s, c, t.x, t.y, fuel);
    } else if a.shadow.Some? {
      assert ShadowOk(s.nodes, s.nodes[c].a.shadow);
      o := SetLocation(s, a.shadow.value, t.x, t.y, fuel);
    } else {
      o := Normal;
    }
  }

  /** DraggableComponentStateMouseMotionHandler.mouseDragged at (ex, ey) on
      the draggable c of panel p: a component not yet dragging starts to,
      which throws when dragging is disabled; then c (with real-time
      dragging) or its shadow (without, when there is one) is asked to move
      to the target DragTarget computes from the fields of the press. */
  method DragDragged(p: ComponentPanel, c: Id, ex: int, ey: int, fuel: nat) returns (o: Outcome)
    requires p.Valid() && c in p.scene.nodes && IsDraggable(p.scene.nodes[c].kind)
    modifies p.scene`nodes, p.scene`geo, p.scene`valid, p.scene`log
    ensures p.Valid() && KindsKept(old(p.scene.nodes), p.scene.nodes)
    ensures !old(p.scene.nodes[c].Is(Dragging)) && !old(p.scene.nodes[c].Is(DragEnabled)) ==>
      o == Thrown(IllegalState) && unchanged(p.scene)
    ensures old(p.scene.nodes[c].Is(Dragging)) || old(p.scene.nodes[c].Is(DragEnabled)) ==>
      (o.Thrown? ==> o == Thrown(StackOverflow))
      && p.scene.nodes == WithFlag(old(p.scene.nodes), c, Dragging, true)
    ensures var a := old(p.scene.nodes[c].a);
      var t := DragTarget(ex, ey, a.offX, a.offY, a.snap, a.hSpacing, a.vSpacing);
      old(p.scene.nodes[c].Is(Dragging)) || old(p.scene.nodes[c].Is(DragEnabled)) ==>
        (RealTime in a.on ==>
           p.scene.geo == old(p.scene.geo)[c := old(p.scene.geo[c]).(bounds := MovedTo(p.scene.nodes[c], old(p.scene.geo[c].bounds), t.x, t.y))])
        && (RealTime !in a.on && a.shadow.Some? ==>
           a.shadow.value in old(p.scene.geo)
           && p.scene.geo == old(p.scene.geo)[a.shadow.value := old(p.scene.geo[a.shadow.value]).(bounds :=
                MovedTo(p.scene.nodes[a.shadow.value], old(p.scene.geo[a.shadow.value].bounds), t.x, t.y))])
        && (RealTime !in a.on && a.shadow.None? ==> o == Normal && p.scene.geo == old(p.scene.geo))
    ensures var a := old(p.scene.nodes[c].a);
      RealTime in a.on && Movable in a.on && !a.snap && (Dragging in a.on || DragEnabled in a.on) ==>
        p.scene.geo[c].bounds == old(p.scene.geo[c].bounds).(x := ex - a.offX, y := ey - a.offY)
  {
    var s := p.scene;
    ghost var a0 := s.nodes[c].a;
    o := StartDrag(p, c);
    if o.Thrown? {
      return;
    }
    var a := s.nodes[c].a;
    assert a == a0.(on := Toggled(a0.on, Dragging, true));
    var t := DragTarget(ex, ey, a.offX, a.offY, a.snap, a.hSpacing, a.vSpacing);
    ghost var b := s.geo[c].bounds;
    o := DragMove(p, c, t, fuel);
    if RealTime in a.on && Movable in a.on && !a.snap {
      RealTimeTarget(s.nodes[c], b, a, ex, ey);
    }
  }

  /** A press with real-time dragging and no snapping moves nothing and
      records the offsets. */
  method PressRealTime(p: ComponentPanel, c: Id, px: int, py: int, fuel: nat)
    requires p.Valid() && c in p.scene.nodes && IsDraggable(p.scene.nodes[c].kind) && p.scene.nodes[c].Is(RealTime)
    requires !p.snap && !p.scene.nodes[c].a.snap
    modifies p.scene`nodes, p.scene`rank, p.scene`geo, p.scene`valid, p.scene`log
    ensures p.Valid() && c in p.scene.nodes && IsDraggable(p.scene.nodes[c].kind) && p.scene.geo == old(p.scene.geo)
    ensures var a := p.scene.nodes[c].a;
      a.on == old(p.scene.nodes[c].a.on) && !a.snap
      && a.offX == px - old(p.scene.geo[c].bounds.x) && a.offY == py - old(p.scene.geo[c].bounds.y)
  {
    var _ := DragPressed(p, c, px, py, fuel);
  }

  /** Without snapping, a movable component's new bounds are the old ones
      at the mouse less the offsets. */
  lemma RealTimeTarget(n: Node, b: Rect, a: Attrs, ex: int, ey: int)
    requires Movable in n.a.on && !a.snap
    ensures var t := DragTarget(ex, ey, a.offX, a.offY, a.snap, a.hSpacing, a.vSpacing);
      MovedTo(n, b, t.x, t.y) == b.(x := ex - a.offX, y := ey - a.offY)
  {
  }

  /** A drag to (ex, ey) with real-time dragging enabled and no snapping
      moves a movable component to the mouse less the offsets. */
  method DragRealTime(p: ComponentPanel, c: Id, ex: int, ey: int, fuel: nat)
    requires p.Valid() && c in p.scene.nodes && IsDraggable(p.scene.nodes[c].kind)
    requires p.scene.nodes[c].Is(RealTime) && p.scene.nodes[c].Is(DragEnabled) && p.scene.nodes[c].Is(Movable) && !p.scene.nodes[c].a.snap
    modifies p.scene`nodes, p.scene`geo, p.scene`valid, p.scene`log
    ensures p.Valid() && c in p.scene.nodes && IsDraggable(p.scene.nodes[c].kind) && p.scene.nodes[c].Is(RealTime)
    ensures p.scene.geo[c].bounds == old(p.scene.geo[c].bounds).(x := ex - old(p.scene.nodes[c].a.offX), y := ey - old(p.scene.nodes[c].a.offY))
  {
    var _ := DragDragged(p, c, ex, ey, fuel);
  }

  /** A release with real-time dragging moves nothing. */
  method ReleaseRealTime(p: ComponentPanel, c: Id, fuel: nat)
    requires p.Valid() && c in p.scene.nodes && IsDraggable(p.scene.nodes[c].kind) && p.scene.nodes[c].Is(RealTime)
    modifies p.scene`nodes, p.scene`geo, p.scene`valid, p.scene`log
    ensures p.Valid() && p.scene.geo == old(p.scene.geo)
  {
    var _ := DragReleased(p, c, fuel);
  }

  /** A press at (px, py), a drag to (px + dx, py + dy) and a release on a
      movable component with real-time dragging and no snapping move it by
      (dx, dy): the three handlers, one event after the other. */
  method RealTimeRoundTrip(p: ComponentPanel, c: Id, px: int, py: int, dx: int, dy: int, fuel: nat)
    requires p.Valid() && c in p.scene.nodes && IsDraggable(p.scene.nodes[c].kind)
    requires p.scene.nodes[c].Is(RealTime) && p.scene.nodes[c].Is(DragEnabled) && p.scene.nodes[c].Is(Movable)
    requires !p.snap && !p.scene.nodes[c].a.snap
    modifies p.scene`nodes, p.scene`rank, p.scene`geo, p.scene`valid, p.scene`log
    ensures p.Valid() && c in p.scene.geo
    ensures p.scene.geo[c].bounds == old(p.scene.geo[c].bounds).(x := old(p.scene.geo[c].bounds.x) + dx, y := old(p.scene.geo[c].bounds.y) + dy)
  {
    PressRealTime(p, c, px, py, fuel);
    DragRealTime(p, c, px + dx, py + dy, fuel);
    ReleaseRealTime(p, c, fuel);
  }

  // ---------------------------------------------------------------------------
  // DefaultHandle's handlers.

  /** A handle's parent is an adjustable component. */
  lemma HandleParent(m: Store, rank: map<Id, nat>, h: Id)
    requires ValidShape(ShapeOf(m), rank) && h in m && m[h].kind.Handle? && m[h].w.parent.Some?
    ensures m[h].w.parent.value in m && m[m[h].w.parent.value].kind.Adjustable?
  {
    var g := ShapeOf(m);
    ShapeAt(m, h);
    assert KindOk(g, h);
    ShapeAt(m, m[h].w.parent.value);
  }

  /** The parent's setActiveHandle(x, y, a) for a handle h: the parent, when
      there is one, holds a as its active handle; nothing else changes, and
      the property change fires only when the handle was another. */
  method NotifyParent(s: Scene, h: Id, x: int, y: int, a: Option<Id>)
    requires s.Valid() && h in s.nodes && s.nodes[h].kind.Handle?
    modifies s`nodes, s`log
    ensures s.Valid() && ShapeOf(s.nodes) == ShapeOf(old(s.nodes))
    ensures old(s.nodes[h].w.parent).None? ==> unchanged(s)
    ensures var q := old(s.nodes[h].w.parent);
      q.Some? ==>
        q.value in old(s.nodes) && s.nodes[q.value].kind.Adjustable?
        && s.nodes == Restyled(old(s.nodes), q.value, old(s.nodes[q.value].a).(activeHandle := a))
        && s.log == old(s.log) + (if old(s.nodes[q.value].a.activeHandle) == a then [] else [Changed(q.value, ActiveHandleProp)])
  {
    var q := s.nodes[h].w.parent;
    if q.None? {
      return;
    }
    HandleParent(s.nodes, s.rank, h);
    ghost var m0 := s.nodes;
    if m0[q.value].a.activeHandle == a {
      assert m0[q.value].a.(activeHandle := a) == m0[q.value].a;
      assert Restyled(m0, q.value, m0[q.value].a.(activeHandle := a)) == m0;
    }
    SetActiveHandle(s, q.value, x, y, a);
  }

  /** HandleMouseHandler.mousePressed at (ex, ey) on the handle h: its
      parent, when there is one, takes h as its active handle. */
  method HandlePressed(s: Scene, h: Id, ex: int, ey: int)
    requires s.Valid() && h in s.nodes && s.nodes[h].kind.Handle?
    modifies s`nodes, s`log
    ensures s.Valid() && ShapeOf(s.nodes) == ShapeOf(old(s.nodes))
    ensures old(s.nodes[h].w.parent).None? ==> unchanged(s)
    ensures var q := old(s.nodes[h].w.parent);
      q.Some? ==>
        s.nodes[q.value].a.activeHandle == Some(h)
        && forall d | d in old(s.nodes) && d != q.value :: s.nodes[d] == old(s.nodes[d])
  {
    NotifyParent(s, h, ex, ey, Some(h));
  }

  /** HandleMouseHandler.mouseReleased on the handle h: its parent, when
      there is one, has no active handle any more. */
  method HandleReleased(s: Scene, h: Id)
    requires s.Valid() && h in s.nodes && s.nodes[h].kind.Handle?
    modifies s`nodes, s`log
    ensures s.Valid() && ShapeOf(s.nodes) == ShapeOf(old(s.nodes))
    ensures old(s.nodes[h].w.parent).None? ==> unchanged(s)
    ensures var q := old(s.nodes[h].w.parent);
      q.Some? ==>
        s.nodes[q.value].a.activeHandle.None?
        && forall d | d in old(s.nodes) && d != q.value :: s.nodes[d] == old(s.nodes[d])
  {
    NotifyParent(s, h, UNSET_OFFSET, UNSET_OFFSET, None);
  }

  /** HandleMouseMotionHandler.mouseDragged at (ex, ey) on the handle h,
      with the values it reads in hi: a missing active handle throws;
      otherwise h is asked to take the bounds HandleResize computes, so it
      is the handle itself that moves and resizes. */
  method HandleDragged(s: Scene, h: Id, ex: int, ey: int, hi: HandleInputs, fuel: nat) returns (o: Outcome)
    requires s.Sound() && h in s.nodes && s.nodes[h].kind.Handle?
    modifies s`geo, s`valid, s`log
    ensures hi.active.None? ==> o == Thrown(NullPointer) && unchanged(s)
    ensures hi.active.Some? ==>
      SetterFrame(s) && (o.Thrown? ==> o == Thrown(StackOverflow))
      && s.geo == old(s.geo)[h := old(s.geo[h]).(bounds :=
           BoundsAfter(s.nodes[h], old(s.geo[h].bounds), HandleResize(hi.active.value, old(s.geo[h].bounds), ex, ey, hi)))]
  {
    if hi.active.None? {
      return Thrown(NullPointer);
    }
    var b := s.geo[h].bounds;
    o := SetBounds(s, h, HandleResize(hi.active.value, b, ex, ey, hi), fuel);
  }
}
