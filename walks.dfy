/**
 * The read-only walks over a component store: the parent-chain walks of
 * AbstractComponent (getComponentPanel, getRootComponent, isRootComponent, the
 * repaint climb), the panel-space translation of ComponentUtils, and the
 * hit-testing queries of AbstractContainerComponent.
 */
module Walks {
  import opened Outcomes
  import opened Seqs
  import opened Geometry
  import opened Nodes
  import opened Graph

  /** What every walk up a parent chain needs of a store: links stay inside
      the store and parents rank above their children. */
  ghost predicate Walkable(m: Store, rank: map<Id, nat>) {
    Closed(ShapeOf(m)) && Ranked(ShapeOf(m), rank)
  }

  /** What a walk down child lists needs as well: every listed child has the
      lister as its parent. */
  ghost predicate Tree(m: Store, rank: map<Id, nat>) {
    Walkable(m, rank) && ParentChild(ShapeOf(m))
  }

  /** Climbing from x to its parent stays in the store and lowers the measure
      of an upward walk. */
  ghost predicate Steps(m: Store, rank: map<Id, nat>, x: Id)
    requires Walkable(m, rank) && x in m && m[x].w.parent.Some?
    ensures Steps(m, rank, x)
    ensures m[x].w.parent.value in m && Above(rank, m[x].w.parent.value) < Above(rank, x)
  {
    assert ShapeOf(m)[x] == Shape(m[x].kind, m[x].w);
    assert ClimbShrinks(ShapeOf(m), rank, x);
    true
  }

  /** Descending from x to one of its children stays in the store and lowers the rank. */
  ghost predicate StepsDown(m: Store, rank: map<Id, nat>, x: Id, y: Id)
    requires Tree(m, rank) && x in m && y in m[x].w.children
    ensures StepsDown(m, rank, x, y)
    ensures y in m && x in rank && y in rank && rank[y] < rank[x]
  {
    var g := ShapeOf(m);
    assert g[x] == Shape(m[x].kind, m[x].w);
    assert y in g by { assert RefsIn(g[x].w, g.Keys); }
    assert g[y] == Shape(m[y].kind, m[y].w);
    assert y in Kids(g, x);
    assert Par(g, y) == Some(x);
    true
  }

  // ---------------------------------------------------------------------------
  // The panel, the root and the root test.

  /** getComponentPanel() != null: a component's own panel field, and when
      that is null its parent's panel, up the chain. */
  function PanelOf(m: Store, ghost rank: map<Id, nat>, c: Id): bool
    requires Walkable(m, rank) && c in m
    decreases Above(rank, c)
  {
    if m[c].a.panel then true
    else if m[c].w.parent.None? then false
    else
      assert Steps(m, rank, c);
      PanelOf(m, rank, m[c].w.parent.value)
  }

  /** A panel is reachable from c exactly when c or one of its ancestors holds it. */
  lemma {:induction false} PanelOfIff(m: Store, rank: map<Id, nat>, c: Id)
    requires Walkable(m, rank) && c in m
    ensures PanelOf(m, rank, c) <==>
      exists y :: y in m && AncestorOrSelf(ShapeOf(m), rank, c, y) && m[y].a.panel
    decreases Above(rank, c)
  {
    var g := ShapeOf(m);
    assert g[c] == Shape(m[c].kind, m[c].w);
    if m[c].a.panel {
      assert AncestorOrSelf(g, rank, c, c);
    } else if m[c].w.parent.None? {
      forall y | y in m && AncestorOrSelf(g, rank, c, y) ensures !m[y].a.panel {
        assert y == c;
      }
    } else {
      assert Steps(m, rank, c);
      var q := m[c].w.parent.value;
      PanelOfIff(m, rank, q);
      if PanelOf(m, rank, q) {
        var y :| y in m && AncestorOrSelf(g, rank, q, y) && m[y].a.panel;
        assert ClimbShrinks(g, rank, c);
        assert AncestorOrSelf(g, rank, c, y);
      } else {
        forall y | y in m && AncestorOrSelf(g, rank, c, y) ensures !m[y].a.panel {
          if y != c {
            assert AncestorOrSelf(g, rank, q, y);
          }
        }
      }
    }
  }

  /** The last component of the parent chain that starts at x. */
  function TopOf(m: Store, ghost rank: map<Id, nat>, x: Id): (t: Id)
    requires Walkable(m, rank) && x in m
    ensures t in m && m[t].w.parent.None?
    decreases Above(rank, x)
  {
    if m[x].w.parent.None? then x
    else
      assert Steps(m, rank, x);
      TopOf(m, rank, m[x].w.parent.value)
  }

  /** The top of a chain is the start of the chain or one of its ancestors. */
  lemma {:induction false} TopIsAncestor(m: Store, rank: map<Id, nat>, x: Id)
    requires Walkable(m, rank) && x in m
    ensures TopOf(m, rank, x) == x || IsAncestorOf(ShapeOf(m), rank, Some(x), Some(TopOf(m, rank, x)))
    ensures TopOf(m, rank, x) == x <==> m[x].w.parent.None?
    decreases Above(rank, x)
  {
    var g := ShapeOf(m);
    assert g[x] == Shape(m[x].kind, m[x].w);
    if m[x].w.parent.Some? {
      assert Steps(m, rank, x);
      var q := m[x].w.parent.value;
      TopIsAncestor(m, rank, q);
      var t := TopOf(m, rank, q);
      if t != q {
        AncestorThroughParentChain(m, rank, x, q, t);
      }
      AncestorRank(g, rank, x, t);
    }
  }

  /** An ancestor of x's parent is an ancestor of x. */
  lemma AncestorThroughParentChain(m: Store, rank: map<Id, nat>, x: Id, q: Id, t: Id)
    requires Walkable(m, rank) && x in m && q in m && m[x].w.parent == Some(q)
    requires IsAncestorOf(ShapeOf(m), rank, Some(q), Some(t))
    ensures IsAncestorOf(ShapeOf(m), rank, Some(x), Some(t))
  {
    var g := ShapeOf(m);
    assert g[x] == Shape(m[x].kind, m[x].w);
    AncestorRank(g, rank, q, t);
    assert Steps(m, rank, x);
    assert rank[q] > rank[x];
  }

  /** getRootComponent(): a parentless container is its own root, a
      parentless non-container has none, and any other component's root is
      the top of its parent's chain. */
  function RootOf(m: Store, ghost rank: map<Id, nat>, c: Id): Option<Id>
    requires Walkable(m, rank) && c in m
  {
    match m[c].w.parent
    case None => if IsContainer(m[c].kind) then Some(c) else None
    case Some(q) => assert Steps(m, rank, c); Some(TopOf(m, rank, q))
  }

  /** The root is parentless and is the component itself or one of its
      ancestors; there is none exactly for a parentless non-container. */
  lemma RootOfSpec(m: Store, rank: map<Id, nat>, c: Id)
    requires Walkable(m, rank) && c in m
    ensures RootOf(m, rank, c).None? <==> m[c].w.parent.None? && !IsContainer(m[c].kind)
    ensures RootOf(m, rank, c).Some? ==>
      var t := RootOf(m, rank, c).value;
      t in m && m[t].w.parent.None?
      && (t == c || IsAncestorOf(ShapeOf(m), rank, Some(c), Some(t)))
    ensures m[c].w.parent.Some? ==> RootOf(m, rank, c) != Some(c)
  {
    var g := ShapeOf(m);
    assert g[c] == Shape(m[c].kind, m[c].w);
    if m[c].w.parent.Some? {
      assert Steps(m, rank, c);
      var q := m[c].w.parent.value;
      TopIsAncestor(m, rank, q);
      var t := TopOf(m, rank, q);
      if t != q {
        AncestorThroughParentChain(m, rank, c, q, t);
      }
      assert IsAncestorOf(g, rank, Some(c), Some(t));
      AncestorRank(g, rank, c, t);
    }
  }

  /** getRootComponent(), with its loop up the parent chain. */
  method GetRootComponent(m: Store, ghost rank: map<Id, nat>, c: Id) returns (root: Option<Id>)
    requires Walkable(m, rank) && c in m
    ensures root == RootOf(m, rank, c)
  {
    root := m[c].w.parent;
    if root.None? && IsContainer(m[c].kind) {
      return Some(c);
    }
    if root.Some? { assert Steps(m, rank, c); }
    while root.Some? && m[root.value].w.parent.Some?
      invariant root.Some? ==> root.value in m && m[c].w.parent.Some?
      invariant root.Some? ==> TopOf(m, rank, root.value) == RootOf(m, rank, c).value
      invariant root.None? ==> m[c].w.parent.None?
      decreases if root.Some? then Above(rank, root.value) else {}
    {
      assert Steps(m, rank, root.value);
      root := m[root.value].w.parent;
    }
  }

  /** isRootComponent(): DefaultContainerComponent (and so every container)
      asks the panel's root list when a panel is reachable and otherwise tests
      for a missing parent; every other class tests for a missing parent. */
  function IsRootComponent(m: Store, ghost rank: map<Id, nat>, roots: seq<Id>, c: Id): bool
    requires Walkable(m, rank) && c in m
  {
    if IsContainer(m[c].kind) && PanelOf(m, rank, c) then c in roots
    else m[c].w.parent.None?
  }

  /** Only a container can be a root while it has a parent, and only when the
      panel is reachable from it and lists it; a listed container that reaches
      the panel is a root whatever its parent. */
  lemma IsRootComponentSpec(m: Store, rank: map<Id, nat>, roots: seq<Id>, c: Id)
    requires Walkable(m, rank) && c in m
    ensures !IsContainer(m[c].kind) ==> (IsRootComponent(m, rank, roots, c) <==> m[c].w.parent.None?)
    ensures IsRootComponent(m, rank, roots, c) && m[c].w.parent.Some? ==>
      IsContainer(m[c].kind) && c in roots
      && exists y :: y in m && AncestorOrSelf(ShapeOf(m), rank, c, y) && m[y].a.panel
    ensures IsContainer(m[c].kind) && c in roots && m[c].a.panel ==> IsRootComponent(m, rank, roots, c)
  {
    PanelOfIff(m, rank, c);
  }

  // ---------------------------------------------------------------------------
  // Panel-space translation.

  /** The sum of the locations of q and of all its ancestors. */
  function ChainOffset(m: Store, gm: Geos, ghost rank: map<Id, nat>, q: Option<Id>): Point
    requires Walkable(m, rank) && (q.Some? ==> q.value in m)
    decreases if q.Some? then Above(rank, q.value) else {}
  {
    match q
    case None => Point(0, 0)
    case Some(x) =>
      var b := BoundsOf(gm, x);
      if m[x].w.parent.Some? then (assert Steps(m, rank, x);
        var o := ChainOffset(m, gm, rank, m[x].w.parent);
        Point(b.x + o.x, b.y + o.y))
      else Point(b.x, b.y)
  }

  /** ComponentUtils.getLocationOnComponentPanel(c, x, y): null for a null
      component, otherwise (x, y) plus the location of every ancestor. */
  function LocationOnPanel(m: Store, gm: Geos, ghost rank: map<Id, nat>, c: Option<Id>, x: int, y: int): Option<Point>
    requires Walkable(m, rank) && (c.Some? ==> c.value in m)
  {
    match c
    case None => None
    case Some(k) =>
      assert m[k].w.parent.Some? ==> Steps(m, rank, k);
      var o := ChainOffset(m, gm, rank, m[k].w.parent);
      Some(Point(x + o.x, y + o.y))
  }

  /** getLocationOnComponentPanel, with its loop that adds each parent's location. */
  method GetLocationOnComponentPanel(m: Store, gm: Geos, ghost rank: map<Id, nat>, c: Option<Id>, x: int, y: int)
    returns (location: Option<Point>)
    requires Walkable(m, rank) && (c.Some? ==> c.value in m)
    ensures location == LocationOnPanel(m, gm, rank, c, x, y)
  {
    if c.None? {
      return None;
    }
    var lx, ly := x, y;
    var parent := m[c.value].w.parent;
    if parent.Some? { assert Steps(m, rank, c.value); }
    ghost var total := ChainOffset(m, gm, rank, parent);
    while parent.Some?
      invariant parent.Some? ==> parent.value in m
      invariant lx + ChainOffset(m, gm, rank, parent).x == x + total.x
      invariant ly + ChainOffset(m, gm, rank, parent).y == y + total.y
      decreases parent.Some?, if parent.Some? then Above(rank, parent.value) else {}
    {
      var b := BoundsOf(gm, parent.value);
      lx, ly := lx + b.x, ly + b.y;
      if m[parent.value].w.parent.Some? { assert Steps(m, rank, parent.value); }
      parent := m[parent.value].w.parent;
    }
    location := Some(Point(lx, ly));
  }

  /** A parentless component's coordinates are panel coordinates; a child's
      point is its parent's point moved by the parent's location; and moving
      the point moves the result by the same amount. */
  lemma LocationOnPanelSteps(m: Store, gm: Geos, rank: map<Id, nat>, c: Id, x: int, y: int, dx: int, dy: int)
    requires Walkable(m, rank) && c in m
    ensures m[c].w.parent.None? ==> LocationOnPanel(m, gm, rank, Some(c), x, y) == Some(Point(x, y))
    ensures m[c].w.parent.Some? ==>
      var q := m[c].w.parent.value;
      q in m && LocationOnPanel(m, gm, rank, Some(c), x, y)
        == LocationOnPanel(m, gm, rank, Some(q), x + BoundsOf(gm, q).x, y + BoundsOf(gm, q).y)
    ensures var a, b := LocationOnPanel(m, gm, rank, Some(c), x, y), LocationOnPanel(m, gm, rank, Some(c), x + dx, y + dy);
      a.Some? && b.Some? && b.value == Point(a.value.x + dx, a.value.y + dy)
  {
    if m[c].w.parent.Some? {
      assert Steps(m, rank, c);
      var q := m[c].w.parent.value;
      if m[q].w.parent.Some? { assert Steps(m, rank, q); }
    }
  }

  /** getBoundsOnComponentPanel(c, x, y, w, h): the origin translated to panel
      space; the size is kept. */
  function BoundsOnPanel(m: Store, gm: Geos, ghost rank: map<Id, nat>, c: Option<Id>, r: Rect): (res: Option<Rect>)
    requires Walkable(m, rank) && (c.Some? ==> c.value in m)
    ensures res.None? <==> c.None?
  {
    match LocationOnPanel(m, gm, rank, c, r.x, r.y)
    case None => None
    case Some(p) => Some(Rect(p.x, p.y, r.w, r.h))
  }

  /** Only the origin moves, and it moves as a point does. */
  lemma BoundsOnPanelSize(m: Store, gm: Geos, rank: map<Id, nat>, c: Id, r: Rect)
    requires Walkable(m, rank) && c in m
    ensures var b := BoundsOnPanel(m, gm, rank, Some(c), r).value;
      b.w == r.w && b.h == r.h
      && LocationOnPanel(m, gm, rank, Some(c), r.x, r.y) == Some(Point(b.x, b.y))
  {
  }

  // ---------------------------------------------------------------------------
  // The repaint climb.

  /** The request that repaint(x, y, w, h) on c makes of the panel: each step
      up translates by the parent's location and clamps the size to the
      parent's size; at the top the request is dropped when the top holds no
      panel or the width or height is 0. */
  function RepaintTarget(m: Store, gm: Geos, ghost rank: map<Id, nat>, c: Id, r: Rect): Option<Rect>
    requires Walkable(m, rank) && c in m
    decreases Above(rank, c)
  {
    match m[c].w.parent
    case None => if !m[c].a.panel || r.w == 0 || r.h == 0 then None else Some(r)
    case Some(q) =>
      assert Steps(m, rank, c);
      var b := BoundsOf(gm, q);
      RepaintTarget(m, gm, rank, q, Rect(b.x + r.x, b.y + r.y, Min(b.w, r.w), Min(b.h, r.h)))
  }

  /** A request reaches the panel only from a tree whose top holds the panel,
      translated to panel space, never larger than asked and never of width
      or height 0; a tree whose top holds no panel drops every request. */
  lemma {:induction false} RepaintTargetSpec(m: Store, gm: Geos, rank: map<Id, nat>, c: Id, r: Rect)
    requires Walkable(m, rank) && c in m
    ensures !m[TopOf(m, rank, c)].a.panel ==> RepaintTarget(m, gm, rank, c, r).None?
    ensures RepaintTarget(m, gm, rank, c, r).Some? ==>
      var q, o := RepaintTarget(m, gm, rank, c, r).value, ChainOffset(m, gm, rank, m[c].w.parent);
      m[TopOf(m, rank, c)].a.panel && q.x == r.x + o.x && q.y == r.y + o.y
      && q.w <= r.w && q.h <= r.h && q.w != 0 && q.h != 0
    decreases Above(rank, c)
  {
    if m[c].w.parent.Some? {
      assert Steps(m, rank, c);
      var q := m[c].w.parent.value;
      var b := BoundsOf(gm, q);
      if m[q].w.parent.Some? { assert Steps(m, rank, q); }
      RepaintTargetSpec(m, gm, rank, q, Rect(b.x + r.x, b.y + r.y, Min(b.w, r.w), Min(b.h, r.h)));
    }
  }

  // ---------------------------------------------------------------------------
  // Hit tests.

  /** The components of `kids` that contain the point, in list order. */
  function ContainingPoint(m: Store, gm: Geos, kids: seq<Id>, x: int, y: int): seq<Id>
    requires forall k | k in kids :: k in m
  {
    if |kids| == 0 then []
    else
      var k := kids[|kids| - 1];
      ContainingPoint(m, gm, kids[..|kids| - 1], x, y) + (if ContainsPoint(m[k], GeoOf(gm, k), x, y) then [k] else [])
  }

  /** The components of `kids` whose (x, y, w, h) lies inside r, in list order. */
  function InsideRect(m: Store, gm: Geos, kids: seq<Id>, r: Rect): seq<Id>
    requires forall k | k in kids :: k in m
  {
    if |kids| == 0 then []
    else
      var k := kids[|kids| - 1];
      InsideRect(m, gm, kids[..|kids| - 1], r) + (if ContainsRect(r, BoundsOf(gm, k)) then [k] else [])
  }

  /** A filtered list keeps exactly the members that pass, in their order. */
  lemma {:induction false} ContainingPointMembers(m: Store, gm: Geos, kids: seq<Id>, x: int, y: int)
    requires forall k | k in kids :: k in m
    ensures forall k :: k in ContainingPoint(m, gm, kids, x, y) <==> k in kids && ContainsPoint(m[k], GeoOf(gm, k), x, y)
    ensures NoDup(kids) ==> NoDup(ContainingPoint(m, gm, kids, x, y))
    ensures |ContainingPoint(m, gm, kids, x, y)| <= |kids|
  {
    if |kids| > 0 {
      var init := kids[..|kids| - 1];
      assert kids == init + [kids[|kids| - 1]];
      ContainingPointMembers(m, gm, init, x, y);
      if NoDup(kids) {
        assert NoDup(init) by {
          forall i, j | 0 <= i < j < |init| ensures init[i] != init[j] { assert init[i] == kids[i] && init[j] == kids[j]; }
        }
        assert kids[|kids| - 1] !in init by {
          forall i | 0 <= i < |init| ensures init[i] != kids[|kids| - 1] { assert init[i] == kids[i]; }
        }
      }
    }
  }

  lemma {:induction false} InsideRectMembers(m: Store, gm: Geos, kids: seq<Id>, r: Rect)
    requires forall k | k in kids :: k in m
    ensures forall k :: k in InsideRect(m, gm, kids, r) <==> k in kids && ContainsRect(r, BoundsOf(gm, k))
    ensures IsEmpty(r) ==> InsideRect(m, gm, kids, r) == []
    ensures |InsideRect(m, gm, kids, r)| <= |kids|
  {
    if |kids| > 0 {
      var init := kids[..|kids| - 1];
      assert kids == init + [kids[|kids| - 1]];
      InsideRectMembers(m, gm, init, r);
    }
  }

  /** getComponentsAtLocation(x, y), with its loop over the child list. */
  method GetComponentsAtLocation(m: Store, gm: Geos, c: Id, x: int, y: int) returns (list: seq<Id>)
    requires c in m && forall k | k in m[c].w.children :: k in m
    ensures list == ContainingPoint(m, gm, m[c].w.children, x, y)
  {
    var kids := m[c].w.children;
    list := [];
    var i := 0;
    while i < |kids|
      invariant 0 <= i <= |kids|
      invariant list == ContainingPoint(m, gm, kids[..i], x, y)
    {
      assert kids[..i + 1][..i] == kids[..i];
      var k := kids[i];
      if ContainsPoint(m[k], GeoOf(gm, k), x, y) {
        list := list + [k];
      }
      i := i + 1;
    }
    assert kids[..|kids|] == kids;
  }

  /** getComponentsInBounds(r): nothing for a null or empty rectangle,
      otherwise the children that lie inside it, with its loop. */
  method GetComponentsInBounds(m: Store, gm: Geos, c: Id, r: Option<Rect>) returns (list: seq<Id>)
    requires c in m && forall k | k in m[c].w.children :: k in m
    ensures r.None? || r.value.w <= 0 || r.value.h <= 0 ==> list == []
    ensures r.Some? ==> list == InsideRect(m, gm, m[c].w.children, r.value)
  {
    list := [];
    if r.Some? && !(r.value.w > 0 && r.value.h > 0) {
      InsideRectMembers(m, gm, m[c].w.children, r.value);
    }
    if r.Some? && r.value.w > 0 && r.value.h > 0 {
      var kids := m[c].w.children;
      var i := 0;
      while i < |kids|
        invariant 0 <= i <= |kids|
        invariant list == InsideRect(m, gm, kids[..i], r.value)
      {
        assert kids[..i + 1][..i] == kids[..i];
        if ContainsRect(r.value, BoundsOf(gm, kids[i])) {
          list := list + [kids[i]];
        }
        i := i + 1;
      }
      assert kids[..|kids|] == kids;
    }
  }

  /** getComponentAtLocationRecursively(x, y) as intended: the first child in
      list order that contains the point; a container child is searched with
      the point in its own coordinates (less the child's location) and is the
      answer itself when none of its children contains the point. */
  function PickAt(m: Store, gm: Geos, ghost rank: map<Id, nat>, c: Id, x: int, y: int): Option<Id>
    requires Tree(m, rank) && c in m
    decreases rank[c], 1, 0
  {
    PickFrom(m, gm, rank, c, x, y, 0)
  }

  function PickFrom(m: Store, gm: Geos, ghost rank: map<Id, nat>, c: Id, x: int, y: int, i: nat): Option<Id>
    requires Tree(m, rank) && c in m
    decreases rank[c], 0, |m[c].w.children| - i
  {
    var kids := m[c].w.children;
    if i >= |kids| then None
    else
      var k := kids[i];
      assert StepsDown(m, rank, c, k);
      if ContainsPoint(m[k], GeoOf(gm, k), x, y) then Some(PickChild(m, gm, rank, k, x, y))
      else PickFrom(m, gm, rank, c, x, y, i + 1)
  }

  /** The answer given by a child k that contains the point: a container
      child's own answer, with the point in k's coordinates, or else k. */
  function PickChild(m: Store, gm: Geos, ghost rank: map<Id, nat>, k: Id, x: int, y: int): Id
    requires Tree(m, rank) && k in m
    decreases rank[k], 2, 0
  {
    if IsContainer(m[k].kind) then
      var r := PickAt(m, gm, rank, k, x - BoundsOf(gm, k).x, y - BoundsOf(gm, k).y);
      if r.Some? then r.value else k
    else k
  }

  /** getComponentAtLocationRecursively as written: the point handed to a
      container child is translated by this container's own location. */
  function PickAtAsWritten(m: Store, gm: Geos, ghost rank: map<Id, nat>, c: Id, x: int, y: int): Option<Id>
    requires Tree(m, rank) && c in m
    decreases rank[c], 1, 0
  {
    PickFromAsWritten(m, gm, rank, c, x, y, 0)
  }

  function PickFromAsWritten(m: Store, gm: Geos, ghost rank: map<Id, nat>, c: Id, x: int, y: int, i: nat): Option<Id>
    requires Tree(m, rank) && c in m
    decreases rank[c], 0, |m[c].w.children| - i
  {
    var kids := m[c].w.children;
    if i >= |kids| then None
    else
      var k := kids[i];
      assert StepsDown(m, rank, c, k);
      if ContainsPoint(m[k], GeoOf(gm, k), x, y) then
        if IsContainer(m[k].kind) then
          var r := PickAtAsWritten(m, gm, rank, k, x - BoundsOf(gm, c).x, y - BoundsOf(gm, c).y);
          if r.Some? then r else Some(k)
        else Some(k)
      else PickFromAsWritten(m, gm, rank, c, x, y, i + 1)
  }

  lemma AncestorHasParent(m: Store, rank: map<Id, nat>, d: Id, a: Id)
    requires Walkable(m, rank) && d in m && IsAncestorOf(ShapeOf(m), rank, Some(d), Some(a))
    ensures m[d].w.parent.Some?
  {
    assert ShapeOf(m)[d] == Shape(m[d].kind, m[d].w);
  }

  /** The sum of the locations of d's ancestors below a: the translation from
      a's coordinates to the coordinates d is placed in. */
  function Rel(m: Store, gm: Geos, ghost rank: map<Id, nat>, d: Id, a: Id): Point
    requires Walkable(m, rank) && d in m && IsAncestorOf(ShapeOf(m), rank, Some(d), Some(a))
    decreases Above(rank, d)
  {
    AncestorHasParent(m, rank, d, a);
    assert Steps(m, rank, d);
    var q := m[d].w.parent.value;
    if q == a then Point(0, 0)
    else
      var o := Rel(m, gm, rank, q, a);
      Point(o.x + BoundsOf(gm, q).x, o.y + BoundsOf(gm, q).y)
  }

  /** d answers a query at (x, y) in c's coordinates: d lies below c, contains
      the point in its own parent's coordinates and, when it is a container,
      holds no child containing the point. */
  ghost predicate Located(m: Store, gm: Geos, rank: map<Id, nat>, c: Id, x: int, y: int, d: Id)
    requires Tree(m, rank) && c in m && d in m
  {
    IsAncestorOf(ShapeOf(m), rank, Some(d), Some(c))
    && var o := Rel(m, gm, rank, d, c);
    ContainsPoint(m[d], GeoOf(gm, d), x - o.x, y - o.y)
    && (IsContainer(m[d].kind) ==>
          PickAt(m, gm, rank, d, x - o.x - BoundsOf(gm, d).x, y - o.y - BoundsOf(gm, d).y).None?)
  }

  /** No child containing the point means no answer, and an answer is located. */
  lemma {:induction false} PickFromSpec(m: Store, gm: Geos, rank: map<Id, nat>, c: Id, x: int, y: int, i: nat)
    requires Tree(m, rank) && c in m
    ensures PickFrom(m, gm, rank, c, x, y, i).None? <==>
      forall j | i <= j < |m[c].w.children| && m[c].w.children[j] in m ::
        !ContainsPoint(m[m[c].w.children[j]], GeoOf(gm, m[c].w.children[j]), x, y)
    ensures PickFrom(m, gm, rank, c, x, y, i).Some? ==>
      PickFrom(m, gm, rank, c, x, y, i).value in m && Located(m, gm, rank, c, x, y, PickFrom(m, gm, rank, c, x, y, i).value)
    decreases rank[c], 0, |m[c].w.children| - i
  {
    var kids := m[c].w.children;
    if i < |kids| {
      var k := kids[i];
      assert StepsDown(m, rank, c, k);
      if ContainsPoint(m[k], GeoOf(gm, k), x, y) {
        assert PickFrom(m, gm, rank, c, x, y, i) == Some(PickChild(m, gm, rank, k, x, y));
        PickChildSpec(m, gm, rank, c, k, x, y);
      } else {
        assert PickFrom(m, gm, rank, c, x, y, i) == PickFrom(m, gm, rank, c, x, y, i + 1);
        PickFromSpec(m, gm, rank, c, x, y, i + 1);
      }
    }
  }

  /** A child that contains the point answers for itself or through one of
      its own descendants. */
  lemma {:induction false} PickChildSpec(m: Store, gm: Geos, rank: map<Id, nat>, c: Id, k: Id, x: int, y: int)
    requires Tree(m, rank) && c in m && k in m[c].w.children && ContainsPoint(m[k], GeoOf(gm, k), x, y)
    ensures StepsDown(m, rank, c, k)
    ensures PickChild(m, gm, rank, k, x, y) in m && Located(m, gm, rank, c, x, y, PickChild(m, gm, rank, k, x, y))
    decreases rank[c], 0, 0
  {
    assert StepsDown(m, rank, c, k);
    var g := ShapeOf(m);
    assert g[k] == Shape(m[k].kind, m[k].w);
    assert m[k].w.parent == Some(c) by { assert k in Kids(g, c); }
    var kx, ky := x - BoundsOf(gm, k).x, y - BoundsOf(gm, k).y;
    if IsContainer(m[k].kind) {
      PickFromSpec(m, gm, rank, k, kx, ky, 0);
    }
    if IsContainer(m[k].kind) && PickAt(m, gm, rank, k, kx, ky).Some? {
      LocatedThrough(m, gm, rank, c, k, x, y, PickAt(m, gm, rank, k, kx, ky).value);
    } else {
      LocatedSelf(m, gm, rank, c, k, x, y);
    }
  }

  lemma LocatedSelf(m: Store, gm: Geos, rank: map<Id, nat>, c: Id, k: Id, x: int, y: int)
    requires Tree(m, rank) && c in m && k in m && m[k].w.parent == Some(c) && ContainsPoint(m[k], GeoOf(gm, k), x, y)
    requires IsContainer(m[k].kind) ==> PickAt(m, gm, rank, k, x - BoundsOf(gm, k).x, y - BoundsOf(gm, k).y).None?
    ensures Located(m, gm, rank, c, x, y, k)
  {
    assert ShapeOf(m)[k] == Shape(m[k].kind, m[k].w);
    assert IsAncestorOf(ShapeOf(m), rank, Some(k), Some(c));
    assert Rel(m, gm, rank, k, c) == Point(0, 0);
  }

  lemma LocatedThrough(m: Store, gm: Geos, rank: map<Id, nat>, c: Id, k: Id, x: int, y: int, d: Id)
    requires Tree(m, rank) && c in m && k in m && d in m && m[k].w.parent == Some(c)
    requires Located(m, gm, rank, k, x - BoundsOf(gm, k).x, y - BoundsOf(gm, k).y, d)
    ensures Located(m, gm, rank, c, x, y, d)
  {
    AncestorIsUp(m, rank, d, k, c);
    RelThrough(m, gm, rank, d, k, c);
  }

  /** An ancestor of d's ancestor k is an ancestor of d. */
  lemma {:induction false} AncestorIsUp(m: Store, rank: map<Id, nat>, d: Id, k: Id, c: Id)
    requires Walkable(m, rank) && d in m && k in m && m[k].w.parent == Some(c)
    requires IsAncestorOf(ShapeOf(m), rank, Some(d), Some(k))
    ensures IsAncestorOf(ShapeOf(m), rank, Some(d), Some(c))
    decreases Above(rank, d)
  {
    var g := ShapeOf(m);
    assert g[d] == Shape(m[d].kind, m[d].w);
    assert g[k] == Shape(m[k].kind, m[k].w);
    AncestorRank(g, rank, d, k);
    assert Steps(m, rank, k);
    var q := m[d].w.parent.value;
    assert Steps(m, rank, d);
    if q != k {
      AncestorIsUp(m, rank, q, k, c);
      AncestorRank(g, rank, q, c);
    }
  }

  /** Translating from c's coordinates to d's passes through k's. */
  lemma {:induction false} RelThrough(m: Store, gm: Geos, rank: map<Id, nat>, d: Id, k: Id, c: Id)
    requires Walkable(m, rank) && d in m && k in m && m[k].w.parent == Some(c)
    requires IsAncestorOf(ShapeOf(m), rank, Some(d), Some(k))
    requires IsAncestorOf(ShapeOf(m), rank, Some(d), Some(c))
    ensures Rel(m, gm, rank, d, c) == Point(Rel(m, gm, rank, d, k).x + BoundsOf(gm, k).x, Rel(m, gm, rank, d, k).y + BoundsOf(gm, k).y)
    decreases Above(rank, d)
  {
    var g := ShapeOf(m);
    assert g[d] == Shape(m[d].kind, m[d].w);
    assert Steps(m, rank, d);
    var q := m[d].w.parent.value;
    if q != k {
      AncestorRank(g, rank, d, k);
      assert q != c by {
        AncestorRank(g, rank, q, k);
        assert Steps(m, rank, k);
      }
      AncestorIsUp(m, rank, q, k, c);
      RelThrough(m, gm, rank, q, k, c);
    }
  }

  /** The intended answer: none exactly when no child contains the point,
      and otherwise a located descendant. */
  lemma PickAtSpec(m: Store, gm: Geos, rank: map<Id, nat>, c: Id, x: int, y: int)
    requires Tree(m, rank) && c in m
    ensures PickAt(m, gm, rank, c, x, y).None? <==> forall k | k in m[c].w.children :: !ContainsPoint(m[k], GeoOf(gm, k), x, y)
    ensures PickAt(m, gm, rank, c, x, y).Some? ==>
      PickAt(m, gm, rank, c, x, y).value in m && Located(m, gm, rank, c, x, y, PickAt(m, gm, rank, c, x, y).value)
  {
    PickFromSpec(m, gm, rank, c, x, y, 0);
  }

  /** A container at (100, 100) holding a container at (10, 10, 50, 50) that
      holds a leaf at (0, 0, 5, 5). */
  function NestedStore(): Store {
    var c := Fresh(Container, 0, None);
    var d := Fresh(Container, 1, None);
    var e := Fresh(Basic, 2, None);
    map[0 := c.(w := c.w.(children := [1])),
        1 := d.(w := d.w.(parent := Some(0), children := [2])),
        2 := e.(w := e.w.(parent := Some(1)))]
  }

  function NestedGeos(): Geos {
    map[0 := Geo(Rect(100, 100, 200, 200), None), 1 := Geo(Rect(10, 10, 50, 50), None), 2 := Geo(Rect(0, 0, 5, 5), None)]
  }

  lemma NestedTree()
    ensures Tree(NestedStore(), map[0 := 2, 1 := 1, 2 := 0])
  {
    var m, rank := NestedStore(), map[0 := 2, 1 := 1, 2 := 0];
    var w0, w1, w2 := m[0].w, m[1].w, m[2].w;
    assert w0.parent == None && w0.children == [1] && w0.inbound == w0.outbound == [] && w0.source == w0.dest == None;
    assert w1.parent == Some(0) && w1.children == [2] && w1.inbound == w1.outbound == [] && w1.source == w1.dest == None;
    assert w2.parent == Some(1) && w2.children == [] && w2.inbound == w2.outbound == [] && w2.source == w2.dest == None;
    var g := ShapeOf(m);
    assert g.Keys == {0, 1, 2};
    assert g[0].w == w0 && g[1].w == w1 && g[2].w == w2;
    ChainClosedRanked(g, rank);
    ChainParentChild(g);
  }

  /** The chain 2 -> 1 -> 0 without connections refers only to stored
      components, and its ranks fall from parent to child. */
  lemma ChainClosedRanked(g: Shapes, rank: map<Id, nat>)
    requires g.Keys == {0, 1, 2} && rank == map[0 := 2, 1 := 1, 2 := 0]
    requires g[0].w == Wiring(None, [1], [], [], None, None)
    requires g[1].w == Wiring(Some(0), [2], [], [], None, None)
    requires g[2].w == Wiring(Some(1), [], [], [], None, None)
    ensures Closed(g) && Ranked(g, rank)
  {
  }

  /** Three components in a chain 2 -> 1 -> 0 are listed by their parents. */
  lemma ChainParentChild(g: Shapes)
    requires g.Keys == {0, 1, 2}
    requires g[0].w.parent == None && g[0].w.children == [1]
    requires g[1].w.parent == Some(0) && g[1].w.children == [2]
    requires g[2].w.parent == Some(1) && g[2].w.children == []
    ensures ParentChild(g)
  {
    assert Kids(g, 0) == [1] && Kids(g, 1) == [2] && Kids(g, 2) == [];
  }

  /** As written, the query at (12, 12) stops at the middle container, although
      its leaf contains the point (2, 2) in the middle container's coordinates;
      the intended walk finds the leaf. */
  lemma PickAsWrittenMissesNested()
    ensures Tree(NestedStore(), map[0 := 2, 1 := 1, 2 := 0])
    ensures PickAtAsWritten(NestedStore(), NestedGeos(), map[0 := 2, 1 := 1, 2 := 0], 0, 12, 12) == Some(1)
    ensures ContainsPoint(NestedStore()[2], NestedGeos()[2], 12 - 10, 12 - 10)
    ensures PickAt(NestedStore(), NestedGeos(), map[0 := 2, 1 := 1, 2 := 0], 0, 12, 12) == Some(2)
  {
    NestedTree();
    var m, gm, rank := NestedStore(), NestedGeos(), map[0 := 2, 1 := 1, 2 := 0];
    assert m[0].w.children == [1] && m[1].w.children == [2] && m[2].w.children == [];
    assert BoundsOf(gm, 1) == Rect(10, 10, 50, 50) && BoundsOf(gm, 0) == Rect(100, 100, 200, 200);
    assert BoundsOf(gm, 2) == Rect(0, 0, 5, 5) && !m[2].kind.Connection? && Visible in m[2].a.on;
    assert Visible in m[1].a.on && IsContainer(m[1].kind) && !IsContainer(m[2].kind);
    assert PickAt(m, gm, rank, 1, 2, 2) == Some(2);
    assert PickAtAsWritten(m, gm, rank, 1, -88, -88) == None;
  }

  /** getComponentAtLocationRecursively, with its loop over the children and its
      recursion into container children. */
  method GetComponentAtLocationRecursively(m: Store, gm: Geos, ghost rank: map<Id, nat>, c: Id, x: int, y: int)
    returns (component: Option<Id>)
    requires Tree(m, rank) && c in m
    ensures component == PickAt(m, gm, rank, c, x, y)
    decreases rank[c]
  {
    var kids := m[c].w.children;
    component := None;
    var i := 0;
    while component.None? && i < |kids|
      invariant 0 <= i <= |kids|
      invariant component.None? ==> PickFrom(m, gm, rank, c, x, y, i) == PickAt(m, gm, rank, c, x, y)
      invariant component.Some? ==> component == PickAt(m, gm, rank, c, x, y)
      decreases |kids| - i
    {
      var k := kids[i];
      assert StepsDown(m, rank, c, k);
      if ContainsPoint(m[k], GeoOf(gm, k), x, y) {
        if IsContainer(m[k].kind) {
          component := GetComponentAtLocationRecursively(m, gm, rank, k, x - BoundsOf(gm, k).x, y - BoundsOf(gm, k).y);
        }
        if component.None? {
          component := Some(k);
        }
      }
      i := i + 1;
    }
  }
}
