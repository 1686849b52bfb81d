/**
 * validate() as every class defines it, layoutContainer() of
 * DefaultContainerComponent and DefaultAdjustableComponent, the two
 * ContainerLayout strategies, and revalidate().
 *
 * The calls nest: a container's validate lays it out; laying out lays out
 * the container children, asks the strategy, which validates the children
 * and sets the container's bounds (invalidating it and its parent), and may
 * lay out the parent. Each Java call of this group takes one unit of the
 * `fuel` (the stack depth left); a call without fuel left ends in
 * `Thrown(StackOverflow)`.
 */
module Layouts {
  import opened Outcomes
  import opened Seqs
  import opened Geometry
  import opened Nodes
  import opened Graph
  import opened Walks
  import opened Panels
  import opened Validation
  import opened Resizing

  /** What every operation of this group keeps: the store stays sound, only
      components become valid and the log only grows. */
  twostate predicate LayoutFrame(s: Scene)
    reads s
  {
    s.Sound() && old(s.log) <= s.log && s.valid <= old(s.valid) + s.nodes.Keys
  }

  /** A connection that lacks a source or a destination, which its validate
      leaves alone. */
  predicate MissingEnd(n: Node) {
    n.kind.Connection? && (n.w.source.None? || n.w.dest.None?)
  }

  lemma EndsStored(m: Store, rank: map<Id, nat>, c: Id)
    requires Walkable(m, rank) && c in m
    ensures m[c].w.source.Some? ==> m[c].w.source.value in m
    ensures m[c].w.dest.Some? ==> m[c].w.dest.value in m
    ensures forall k | k in m[c].w.children :: k in m
    ensures m[c].w.parent.Some? ==> m[c].w.parent.value in m
  {
    assert ShapeOf(m)[c] == Shape(m[c].kind, m[c].w);
    assert RefsIn(ShapeOf(m)[c].w, ShapeOf(m).Keys);
  }

  /** Under the invariant of the component graph, the connection lists of a
      component hold connections only. */
  lemma ConnectionListsHoldConnections(m: Store, rank: map<Id, nat>, c: Id)
    requires ValidShape(ShapeOf(m), rank) && c in m
    ensures forall k | k in m[c].w.inbound + m[c].w.outbound :: k in m && m[k].kind.Connection?
  {
    var g := ShapeOf(m);
    assert g[c] == Shape(m[c].kind, m[c].w);
    forall k | k in m[c].w.inbound + m[c].w.outbound
      ensures k in m && m[k].kind.Connection?
    {
      assert RefsIn(g[c].w, g.Keys);
      assert k in g;
      assert g[k] == Shape(m[k].kind, m[k].w);
      if k in m[c].w.inbound {
        assert k in Listed(g[c].w, Dest);
        assert EndOf(g[k].w, Dest) == Some(c);
      } else {
        assert k in Listed(g[c].w, Source);
        assert EndOf(g[k].w, Source) == Some(c);
      }
      assert KindOk(g, k);
    }
  }

  // ---------------------------------------------------------------------------
  // DefaultConnection.validate

  /** The panel-space centre of c: getLocationOnComponentPanel(c,
      getCenterX(), getCenterY()). */
  function CentreOnPanel(m: Store, gm: Geos, ghost rank: map<Id, nat>, c: Id): Point
    requires Walkable(m, rank) && c in m
  {
    var g := GeoOf(gm, c);
    LocationOnPanel(m, gm, rank, Some(c), CenterX(g), CenterY(g)).value
  }

  /** The line DefaultConnection.validate computes: from the panel-space
      centre of the source to that of the destination. */
  function CentreLine(m: Store, gm: Geos, ghost rank: map<Id, nat>, c: Id): Line
    requires Walkable(m, rank) && c in m && m[c].kind.Connection? && !MissingEnd(m[c])
  {
    EndsStored(m, rank, c);
    var a, b := CentreOnPanel(m, gm, rank, m[c].w.source.value), CentreOnPanel(m, gm, rank, m[c].w.dest.value);
    Line(a.x, a.y, b.x, b.y)
  }

  /** A connection between two parentless components runs between their
      centres as they are: the panel-space point of a root is its own. */
  lemma CentreLineOfRoots(m: Store, gm: Geos, rank: map<Id, nat>, c: Id)
    requires Walkable(m, rank) && c in m && m[c].kind.Connection? && !MissingEnd(m[c])
    requires (EndsStored(m, rank, c); m[m[c].w.source.value].w.parent.None? && m[m[c].w.dest.value].w.parent.None?)
    ensures var a, b := GeoOf(gm, m[c].w.source.value), GeoOf(gm, m[c].w.dest.value);
      CentreLine(m, gm, rank, c) == Line(CenterX(a), CenterY(a), CenterX(b), CenterY(b))
  {
    EndsStored(m, rank, c);
    var src, dst := m[c].w.source.value, m[c].w.dest.value;
    LocationOnPanelSteps(m, gm, rank, src, CenterX(GeoOf(gm, src)), CenterY(GeoOf(gm, src)), 0, 0);
    LocationOnPanelSteps(m, gm, rank, dst, CenterX(GeoOf(gm, dst)), CenterY(GeoOf(gm, dst)), 0, 0);
  }

  /** The notes a connection's validation leaves: VALIDATED to its
      listeners, then the repaint of the union of its new preferred bounds
      and those it had with geometry g. */
  function ConnectionNotes(m: Store, gm: Geos, ghost rank: map<Id, nat>, c: Id, g: Geo): seq<Note>
    requires Walkable(m, rank) && c in m
  {
    ValidationNotes(m[c], ValidationEv(c, Validated))
      + RepaintNotes(m, gm, rank, c, Union(PreferredBounds(m[c], GeoOf(gm, c)), PreferredBounds(m[c], g)))
  }

  /** DefaultConnection.validate: a valid connection, or one missing an end,
      is left alone; otherwise its line runs between the panel-space centres
      of its ends, it becomes valid (firing VALIDATED), and the union of its
      old and new preferred bounds is repainted. */
  method ValidateConnection(s: Scene, c: Id)
    requires s.Sound() && c in s.nodes && s.nodes[c].kind.Connection?
    modifies s`geo, s`valid, s`log
    ensures LayoutFrame(s)
    ensures c in old(s.valid) || MissingEnd(s.nodes[c]) ==>
      s.geo == old(s.geo) && s.valid == old(s.valid) && s.log == old(s.log)
    ensures c !in old(s.valid) && !MissingEnd(s.nodes[c]) ==>
      s.geo == old(s.geo)[c := old(s.geo[c]).(line := Some(CentreLine(s.nodes, old(s.geo), s.rank, c)))]
      && s.valid == old(s.valid) + {c}
      && s.log == old(s.log) + ConnectionNotes(s.nodes, s.geo, s.rank, c, old(s.geo[c]))
  {
    if c in s.valid || MissingEnd(s.nodes[c]) {
      return;
    }
    LineAndRepaint(s, c);
  }

  /** The work of DefaultConnection.validate once both ends are present: the
      line is set, the connection validated, and the union repainted. */
  method LineAndRepaint(s: Scene, c: Id)
    requires s.Sound() && c in s.nodes && s.nodes[c].kind.Connection? && !MissingEnd(s.nodes[c]) && c !in s.valid
    modifies s`geo, s`valid, s`log
    ensures s.Sound()
    ensures s.geo == old(s.geo)[c := old(s.geo[c]).(line := Some(CentreLine(s.nodes, old(s.geo), s.rank, c)))]
    ensures s.valid == old(s.valid) + {c}
    ensures s.log == old(s.log) + ConnectionNotes(s.nodes, s.geo, s.rank, c, old(s.geo[c]))
  {
    var n, g := s.nodes[c], s.geo[c];
    var oldPref := PreferredBounds(n, g);
    SetLine(s, c, CentreLine(s.nodes, s.geo, s.rank, c));
    ValidateComponent(s, c);
    var r := Union(PreferredBounds(n, GeoOf(s.geo, c)), oldPref);
    Repaint(s, c, r);
    AppendAssoc(old(s.log), ValidationNotes(n, ValidationEv(c, Validated)), RepaintNotes(s.nodes, s.geo, s.rank, c, r));
  }

  /** `line.setLine(...)` on the connection's own line object. */
  method SetLine(s: Scene, c: Id, l: Line)
    requires s.Sound() && c in s.nodes
    modifies s`geo
    ensures s.Sound()
    ensures s.geo == old(s.geo)[c := old(s.geo[c]).(line := Some(l))]
  {
    s.geo := s.geo[c := s.geo[c].(line := Some(l))];
  }

  // ---------------------------------------------------------------------------
  // validate() and layoutContainer()

  /** Every one of ks is a stored connection. */
  ghost predicate AllConnections(m: Store, ks: seq<Id>) {
    forall k {:trigger k in ks} | k in ks :: k in m && m[k].kind.Connection?
  }

  /** Every one of ks that is a stored connection is valid or missing an end. */
  ghost predicate Settled(m: Store, v: set<Id>, ks: seq<Id>) {
    forall k | k in ks && k in m && m[k].kind.Connection? :: k in v || MissingEnd(m[k])
  }

  /** The connection lists of c hold connection objects only, as their Java
      element type says (ConnectionListsHoldConnections derives it from the
      invariant of the component graph). */
  ghost predicate ListsHoldConnections(m: Store, c: Id)
    requires c in m
  {
    AllConnections(m, m[c].w.inbound) && AllConnections(m, m[c].w.outbound)
  }

  /** Every connection of c is valid or missing an end. */
  ghost predicate ConnectionsSettled(m: Store, v: set<Id>, c: Id)
    requires c in m
  {
    Settled(m, v, m[c].w.inbound) && Settled(m, v, m[c].w.outbound)
  }

  lemma SettledGrows(m: Store, v: set<Id>, v': set<Id>, ks: seq<Id>)
    requires Settled(m, v, ks) && v <= v'
    ensures Settled(m, v', ks)
  {
  }

  /** validate() as the class of c defines it: DefaultConnection's,
      DefaultConnectedComponent's, DefaultContainerComponent's (for every
      container), or DefaultComponent's (for the rest, handles among them).
      A valid component, and a connection missing an end, is left alone;
      when the call completes, c is valid unless it is a connection missing
      an end, and the connections of a connected component are valid or
      missing an end. */
  method Validate(s: Scene, v: View, c: Id, fuel: nat) returns (o: Outcome)
    requires s.Sound() && c in s.nodes
    modifies s`geo, s`valid, s`log
    ensures o.Thrown? ==> o == Thrown(StackOverflow)
    ensures LayoutFrame(s)
    ensures c in old(s.valid) || MissingEnd(s.nodes[c]) ==>
      o == Normal && s.geo == old(s.geo) && s.valid == old(s.valid) && s.log == old(s.log)
    ensures o.Normal? && !MissingEnd(s.nodes[c]) ==> c in s.valid
    ensures s.nodes[c].kind.Connection? ==> o == Normal && old(s.valid) <= s.valid
    ensures s.nodes[c].kind.Connected? && c !in old(s.valid) && ListsHoldConnections(s.nodes, c) && o.Normal? ==>
      ConnectionsSettled(s.nodes, s.valid, c)
    decreases fuel, 3
  {
    var k := s.nodes[c].kind;
    if k.Connection? {
      ValidateConnection(s, c);
      o := Normal;
    } else if IsContainer(k) {
      o := ValidateContainer(s, v, c, fuel);
    } else if k.Connected? {
      o := ValidateConnected(s, v, c, fuel);
    } else {
      ValidateComponent(s, c);
      o := Normal;
    }
  }

  /** DefaultConnectedComponent.validate: unless valid, every inbound
      connection is validated, then every outbound one, then the component. */
  method ValidateConnected(s: Scene, v: View, c: Id, fuel: nat) returns (o: Outcome)
    requires s.Sound() && c in s.nodes && IsConnectedKind(s.nodes[c].kind)
    modifies s`geo, s`valid, s`log
    ensures o.Thrown? ==> o == Thrown(StackOverflow)
    ensures LayoutFrame(s)
    ensures c in old(s.valid) ==> o == Normal && s.geo == old(s.geo) && s.valid == old(s.valid) && s.log == old(s.log)
    ensures o.Normal? ==> c in s.valid
    ensures o.Normal? && c !in old(s.valid) && ListsHoldConnections(s.nodes, c) ==> ConnectionsSettled(s.nodes, s.valid, c)
    decreases fuel, 1
  {
    if c in s.valid {
      return Normal;
    }
    var w := s.nodes[c].w;
    ConnectionsStored(s.nodes, s.rank, c);
    ghost var l0 := s.log;
    o := ValidateEach(s, v, w.inbound, fuel);
    if o.Thrown? {
      return;
    }
    ghost var v1, l1 := s.valid, s.log;
    o := ValidateEach(s, v, w.outbound, fuel);
    if o.Thrown? {
      return;
    }
    ghost var v2, l2 := s.valid, s.log;
    ValidateComponent(s, c);
    PrefixTrans(l0, l1, l2);
    PrefixTrans(l0, l2, s.log);
    if o.Normal? && ListsHoldConnections(s.nodes, c) {
      SettledGrows(s.nodes, v1, s.valid, w.inbound);
      SettledGrows(s.nodes, v2, s.valid, w.outbound);
    }
  }

  /** The loop `for (i = 0, size = count; i < size; i++) get(i).validate()`
      over a connection list: every connection of the list ends valid or
      missing an end, and validating connections only adds to the valid set. */
  method ValidateEach(s: Scene, v: View, ks: seq<Id>, fuel: nat) returns (o: Outcome)
    requires s.Sound() && forall k | k in ks :: k in s.nodes
    modifies s`geo, s`valid, s`log
    ensures o.Thrown? ==> o == Thrown(StackOverflow)
    ensures LayoutFrame(s)
    ensures AllConnections(s.nodes, ks) ==> old(s.valid) <= s.valid && (o.Normal? ==> Settled(s.nodes, s.valid, ks))
    decreases fuel, 0
  {
    var i := 0;
    while i < |ks|
      invariant 0 <= i <= |ks|
      invariant LayoutFrame(s)
      invariant AllConnections(s.nodes, ks) ==> old(s.valid) <= s.valid && Settled(s.nodes, s.valid, ks[..i])
    {
      if fuel == 0 {
        return Thrown(StackOverflow);
      }
      ghost var l0 := s.log;
      ghost var v0 := s.valid;
      o := Validate(s, v, ks[i], fuel - 1);
      PrefixTrans(old(s.log), l0, s.log);
      if o.Thrown? {
        return;
      }
      if AllConnections(s.nodes, ks) {
        assert ks[i] in ks;
        SettledGrows(s.nodes, v0, s.valid, ks[..i]);
        TakeOneMore(ks, i);
      }
      i := i + 1;
    }
    TakeAll(ks);
    o := Normal;
  }

  /** DefaultContainerComponent.validate: unless valid, the container is laid
      out, then validated as a connected component. */
  method ValidateContainer(s: Scene, v: View, c: Id, fuel: nat) returns (o: Outcome)
    requires s.Sound() && c in s.nodes && IsContainer(s.nodes[c].kind)
    modifies s`geo, s`valid, s`log
    ensures o.Thrown? ==> o == Thrown(StackOverflow)
    ensures LayoutFrame(s)
    ensures c in old(s.valid) ==> o == Normal && s.geo == old(s.geo) && s.valid == old(s.valid) && s.log == old(s.log)
    ensures o.Normal? ==> c in s.valid
    decreases fuel, 2
  {
    if c in s.valid {
      return Normal;
    }
    if fuel == 0 {
      return Thrown(StackOverflow);
    }
    ghost var l0 := s.log;
    o := LayoutContainer(s, v, c, fuel - 1);
    if o.Thrown? {
      return;
    }
    ghost var l1 := s.log;
    o := ValidateConnected(s, v, c, fuel);
    PrefixTrans(l0, l1, s.log);
  }

  /** layoutContainer() as the class of c defines it: DefaultContainerComponent's,
      followed for a DefaultAdjustableComponent by updateHandlePositions,
      which runs even when the base layout returns at once. */
  method LayoutContainer(s: Scene, v: View, c: Id, fuel: nat) returns (o: Outcome)
    requires s.Sound() && c in s.nodes && IsContainer(s.nodes[c].kind)
    modifies s`geo, s`valid, s`log
    ensures o.Thrown? ==> o == Thrown(StackOverflow)
    ensures LayoutFrame(s)
    ensures !s.nodes[c].kind.Adjustable? && (LayoutEnabled !in s.nodes[c].a.on || c in old(s.valid)) ==>
      o == Normal && s.geo == old(s.geo) && s.valid == old(s.valid) && s.log == old(s.log)
    ensures s.nodes[c].kind.Adjustable? && (LayoutEnabled !in s.nodes[c].a.on || c in old(s.valid)) && o.Normal? ==>
      s.geo == PlacedAll(s.nodes, old(s.geo), c)
    decreases fuel, 2
  {
    ghost var l0 := s.log;
    o := BaseLayout(s, v, c, fuel);
    if o.Thrown? || !s.nodes[c].kind.Adjustable? {
      return;
    }
    ghost var l1 := s.log;
    o := UpdateHandlePositions(s, c, fuel);
    PrefixTrans(l0, l1, s.log);
  }

  /** DefaultContainerComponent.layoutContainer: nothing happens when layout
      is disabled or the container is valid. Otherwise every container child
      is laid out, in list order; then the strategy, if any, lays the
      container out, and when it reports a change and the container has a
      parent, the parent is laid out; last, a root component that reaches
      the panel has the panel revalidated. */
  method BaseLayout(s: Scene, v: View, c: Id, fuel: nat) returns (o: Outcome)
    requires s.Sound() && c in s.nodes && IsContainer(s.nodes[c].kind)
    modifies s`geo, s`valid, s`log
    ensures o.Thrown? ==> o == Thrown(StackOverflow)
    ensures LayoutFrame(s)
    ensures LayoutEnabled !in s.nodes[c].a.on || c in old(s.valid) ==>
      o == Normal && s.geo == old(s.geo) && s.valid == old(s.valid) && s.log == old(s.log)
    ensures (o.Normal? && LayoutEnabled in s.nodes[c].a.on && c !in old(s.valid)
             && IsRootComponent(s.nodes, s.rank, v.roots, c) && PanelOf(s.nodes, s.rank, c)) ==>
      |s.log| > 0 && s.log[|s.log| - 1] == PanelRevalidated
    decreases fuel, 1
  {
    var n := s.nodes[c];
    if LayoutEnabled !in n.a.on || c in s.valid {
      return Normal;
    }
    EndsStored(s.nodes, s.rank, c);
    ghost var l0 := s.log;
    o := LayoutChildren(s, v, n.w.children, fuel);
    if o.Thrown? {
      return;
    }
    ghost var l1 := s.log;
    o := ApplyLayout(s, v, c, fuel);
    PrefixTrans(l0, l1, s.log);
    if o.Thrown? {
      return;
    }
    if IsRootComponent(s.nodes, s.rank, v.roots, c) && PanelOf(s.nodes, s.rank, c) {
      s.log := s.log + [PanelRevalidated];
    }
    o := Normal;
  }

  /** The middle of layoutContainer: the strategy, if any, lays the container
      out, and when it reports a change and the container has a parent, the
      parent is laid out. */
  method ApplyLayout(s: Scene, v: View, c: Id, fuel: nat) returns (o: Outcome)
    requires s.Sound() && c in s.nodes && IsContainer(s.nodes[c].kind)
    modifies s`geo, s`valid, s`log
    ensures o.Thrown? ==> o == Thrown(StackOverflow)
    ensures LayoutFrame(s)
    ensures s.nodes[c].a.layout.None? ==> o == Normal && s.geo == old(s.geo) && s.valid == old(s.valid) && s.log == old(s.log)
    decreases fuel, 0
  {
    var n := s.nodes[c];
    if n.a.layout.None? {
      return Normal;
    }
    if fuel == 0 {
      return Thrown(StackOverflow);
    }
    var changed: bool;
    ghost var ps: seq<Rect>;
    if n.a.layout.value == FitToChildren {
      o, changed, ps := FitToChildrenLayout(s, v, c, fuel - 1);
    } else {
      o, changed, ps := RootComponentLayout(s, v, c, fuel - 1);
    }
    if o.Thrown? || !changed || n.w.parent.None? {
      return;
    }
    EndsStored(s.nodes, s.rank, c);
    var q := n.w.parent.value;
    // A parent is a ContainerComponent in Java; a store whose parent link
    // names another kind has no layoutContainer to call.
    if IsContainer(s.nodes[q].kind) {
      ghost var l1 := s.log;
      o := LayoutContainer(s, v, q, fuel - 1);
      PrefixTrans(old(s.log), l1, s.log);
    }
  }

  /** The first loop of layoutContainer: every child that is a container is
      laid out, in list order. */
  method LayoutChildren(s: Scene, v: View, kids: seq<Id>, fuel: nat) returns (o: Outcome)
    requires s.Sound() && forall k | k in kids :: k in s.nodes
    modifies s`geo, s`valid, s`log
    ensures o.Thrown? ==> o == Thrown(StackOverflow)
    ensures LayoutFrame(s)
    decreases fuel, 0
  {
    var i := 0;
    while i < |kids|
      invariant 0 <= i <= |kids|
      invariant LayoutFrame(s)
    {
      var k := kids[i];
      if IsContainer(s.nodes[k].kind) {
        if fuel == 0 {
          return Thrown(StackOverflow);
        }
        ghost var l0 := s.log;
        o := LayoutContainer(s, v, k, fuel - 1);
        PrefixTrans(old(s.log), l0, s.log);
        if o.Thrown? {
          return;
        }
      }
      i := i + 1;
    }
    o := Normal;
  }

  // ---------------------------------------------------------------------------
  // The layout strategies.

  /** The preferred bounds of each of ks, in order. */
  function PrefsOf(m: Store, gm: Geos, ks: seq<Id>): (ps: seq<Rect>)
    requires forall k | k in ks :: k in m
    ensures |ps| == |ks| && forall i | 0 <= i < |ks| :: var k := ks[i]; ps[i] == PreferredBounds(m[k], GeoOf(gm, k))
  {
    if |ks| == 0 then [] else
      var k := ks[|ks| - 1];
      PrefsOf(m, gm, ks[..|ks| - 1]) + [PreferredBounds(m[k], GeoOf(gm, k))]
  }

  /** The bounds FitToChildrenContainerLayout computes from the children's
      preferred bounds, in order: (0, 0, 0, 0) without children; otherwise the
      least x and the least y, and the greatest width and height, which
      start at 0. */
  function FitBox(ps: seq<Rect>): Rect
  {
    if |ps| == 0 then Rect(0, 0, 0, 0)
    else if |ps| == 1 then Rect(ps[0].x, ps[0].y, Max(0, ps[0].w), Max(0, ps[0].h))
    else
      var r, p := FitBox(ps[..|ps| - 1]), ps[|ps| - 1];
      Rect(Min(r.x, p.x), Min(r.y, p.y), Max(r.w, p.w), Max(r.h, p.h))
  }

  /** The fitted location is the least child location, and the fitted size
      is at least 0 and at least every child's size, and is one of them or 0. */
  lemma {:induction false} FitBoxSpec(ps: seq<Rect>)
    ensures |ps| == 0 ==> FitBox(ps) == Rect(0, 0, 0, 0)
    ensures var r := FitBox(ps);
      r.w >= 0 && r.h >= 0
      && (forall p | p in ps :: r.x <= p.x && r.y <= p.y && p.w <= r.w && p.h <= r.h)
      && (|ps| > 0 ==> (exists p | p in ps :: r.x == p.x) && (exists p | p in ps :: r.y == p.y))
      && (r.w == 0 || exists p | p in ps :: r.w == p.w)
      && (r.h == 0 || exists p | p in ps :: r.h == p.h)
  {
    if |ps| > 1 {
      var q := ps[..|ps| - 1];
      FitBoxSpec(q);
      assert ps == q + [ps[|ps| - 1]];
      assert forall p | p in q :: p in ps;
    }
  }

  /** With one child of non-negative size, the container takes the child's
      preferred bounds. */
  lemma FitBoxOne(p: Rect)
    requires p.w >= 0 && p.h >= 0
    ensures FitBox([p]) == p
  {
  }

  /** The fitted box is not a bounding box: for children at (0, 0) and
      (20, 20), both of size 10 x 10, it is (0, 0, 10, 10), which does not
      cover the second child. */
  lemma FitBoxNotBounding()
    ensures FitBox([Rect(0, 0, 10, 10), Rect(20, 20, 10, 10)]) == Rect(0, 0, 10, 10)
    ensures !Covers(Rect(0, 0, 10, 10), Rect(20, 20, 10, 10))
  {
  }

  /** The size RootComponentLayout computes: the greatest right edge and the
      greatest bottom edge of the children's preferred bounds, at least 0 and,
      when the container reaches the panel, at least the visible area. */
  function RootSize(ps: seq<Rect>, panel: bool, visible: Rect): Point
  {
    var e := Extent(ps);
    if panel then Point(Max(e.x, visible.w), Max(e.y, visible.h)) else e
  }

  function Extent(ps: seq<Rect>): Point
  {
    if |ps| == 0 then Point(0, 0)
    else
      var e, p := Extent(ps[..|ps| - 1]), ps[|ps| - 1];
      Point(Max(e.x, p.x + p.w), Max(e.y, p.y + p.h))
  }

  /** The root size reaches every child's right and bottom edge, is at least 0,
      covers the visible area when the panel is reachable, and is attained:
      0, an edge of a child, or the visible size. */
  lemma {:induction false} RootSizeSpec(ps: seq<Rect>, panel: bool, visible: Rect)
    ensures var r := RootSize(ps, panel, visible);
      r.x >= 0 && r.y >= 0
      && (forall p | p in ps :: p.x + p.w <= r.x && p.y + p.h <= r.y)
      && (panel ==> visible.w <= r.x && visible.h <= r.y)
      && (r.x == 0 || (exists p | p in ps :: r.x == p.x + p.w) || (panel && r.x == visible.w))
      && (r.y == 0 || (exists p | p in ps :: r.y == p.y + p.h) || (panel && r.y == visible.h))
  {
    ExtentSpec(ps);
  }

  lemma {:induction false} ExtentSpec(ps: seq<Rect>)
    ensures var e := Extent(ps);
      e.x >= 0 && e.y >= 0
      && (forall p | p in ps :: p.x + p.w <= e.x && p.y + p.h <= e.y)
      && (e.x == 0 || exists p | p in ps :: e.x == p.x + p.w)
      && (e.y == 0 || exists p | p in ps :: e.y == p.y + p.h)
  {
    if |ps| > 0 {
      var q := ps[..|ps| - 1];
      ExtentSpec(q);
      assert ps == q + [ps[|ps| - 1]];
      assert forall p | p in q :: p in ps;
    }
  }

  /** Every one of ks is in v. */
  predicate AllIn(ks: seq<Id>, v: set<Id>) {
    forall k | k in ks :: k in v
  }

  /** The loop of FitToChildrenContainerLayout.layoutContainer: every child,
      in order, is validated when it is invalid and then measured by its
      preferred bounds, which are folded into the locals x, y (starting at
      Double.MAX_VALUE, here `None`, or at 0 without children) and width and
      height (starting at 0). The box is the fitted box of the measures; when
      every child is valid at the start, nothing changes and the measures are
      the children's preferred bounds as they were. */
  method FitChildren(s: Scene, v: View, kids: seq<Id>, fuel: nat) returns (o: Outcome, box: Rect, ghost ps: seq<Rect>)
    requires s.Sound() && forall k | k in kids :: k in s.nodes
    modifies s`geo, s`valid, s`log
    ensures o.Thrown? ==> o == Thrown(StackOverflow)
    ensures LayoutFrame(s)
    ensures o.Normal? ==> |ps| == |kids| && box == FitBox(ps)
    ensures AllIn(kids, old(s.valid)) ==>
      o == Normal && s.geo == old(s.geo) && s.valid == old(s.valid) && s.log == old(s.log)
      && ps == PrefsOf(s.nodes, s.geo, kids)
    decreases fuel, 1
  {
    ghost var settled := AllIn(kids, s.valid);
    var x: Option<int>, y: Option<int> := None, None;
    var width, height := 0, 0;
    if |kids| == 0 {
      x, y := Some(0), Some(0);
    }
    ps := [];
    var i := 0;
    while i < |kids|
      invariant 0 <= i <= |kids| && |ps| == i
      invariant LayoutFrame(s)
      invariant Folded(x, y, width, height, ps, |kids|)
      invariant settled ==> s.geo == old(s.geo) && s.valid == old(s.valid) && s.log == old(s.log)
      invariant settled ==> ps == PrefsOf(s.nodes, s.geo, kids[..i])
    {
      ghost var l0 := s.log;
      var p;
      o, p := MeasureChild(s, v, kids[i], fuel);
      PrefixTrans(old(s.log), l0, s.log);
      if o.Thrown? {
        return o, Rect(0, 0, 0, 0), ps;
      }
      PrefsOfOneMore(s.nodes, s.geo, kids, i);
      FoldedStep(x, y, width, height, ps, |kids|, p);
      x, y := Lower(x, p.x), Lower(y, p.y);
      width, height := Max(width, p.w), Max(height, p.h);
      ps := ps + [p];
      i := i + 1;
    }
    TakeAll(kids);
    FoldedBox(x, y, width, height, ps);
    box := Rect(x.value, y.value, width, height);
    o := Normal;
  }

  /** `if (value < x) x = value;` for an x that may still be
      Double.MAX_VALUE (`None`). */
  function Lower(x: Option<int>, value: int): (r: Option<int>)
    ensures r.Some? && r.value <= value && (x.Some? ==> r.value <= x.value)
    ensures r.value == value || r == x
  {
    if x.None? || value < x.value then Some(value) else x
  }

  /** The locals of that loop after folding the measures ps, out of n
      children: before the first measure, x and y are Double.MAX_VALUE, or 0
      when there are no children, and width and height are 0; after it, they
      are the fitted box of the measures so far. */
  predicate Folded(x: Option<int>, y: Option<int>, width: int, height: int, ps: seq<Rect>, n: nat) {
    if |ps| == 0 then x == y == (if n == 0 then Some(0) else None) && width == 0 && height == 0
    else x.Some? && y.Some? && Rect(x.value, y.value, width, height) == FitBox(ps)
  }

  /** One more measure moves the locals as it moves the fitted box. */
  lemma FoldedStep(x: Option<int>, y: Option<int>, width: int, height: int, ps: seq<Rect>, n: nat, p: Rect)
    requires Folded(x, y, width, height, ps, n) && |ps| < n
    ensures Folded(Lower(x, p.x), Lower(y, p.y), Max(width, p.w), Max(height, p.h), ps + [p], n)
  {
    assert (ps + [p])[..|ps|] == ps;
  }

  /** After every child, the locals are the fitted box. */
  lemma FoldedBox(x: Option<int>, y: Option<int>, width: int, height: int, ps: seq<Rect>)
    requires Folded(x, y, width, height, ps, |ps|)
    ensures x.Some? && y.Some? && Rect(x.value, y.value, width, height) == FitBox(ps)
  {
  }

  /** One more measure moves the extent as the loop's two comparisons do. */
  lemma ExtentStep(ps: seq<Rect>, p: Rect)
    ensures var e := Extent(ps);
      Extent(ps + [p]) == Point(Max(e.x, p.x + p.w), Max(e.y, p.y + p.h))
  {
    assert (ps + [p])[..|ps|] == ps;
  }

  /** The loop of RootComponentLayout.layoutContainer and the floor after
      it: as FitChildren, but the locals width and height, starting at 0,
      fold the greatest right and bottom edge of the measures, and are then
      raised to the visible area's size when the container reaches the
      panel. */
  method ReachChildren(s: Scene, v: View, kids: seq<Id>, panel: bool, fuel: nat) returns (o: Outcome, width: int, height: int, ghost ps: seq<Rect>)
    requires s.Sound() && forall k | k in kids :: k in s.nodes
    modifies s`geo, s`valid, s`log
    ensures o.Thrown? ==> o == Thrown(StackOverflow)
    ensures LayoutFrame(s)
    ensures o.Normal? ==> |ps| == |kids| && Point(width, height) == RootSize(ps, panel, v.visible)
    ensures AllIn(kids, old(s.valid)) ==>
      o == Normal && s.geo == old(s.geo) && s.valid == old(s.valid) && s.log == old(s.log)
      && ps == PrefsOf(s.nodes, s.geo, kids)
    decreases fuel, 1
  {
    ghost var settled := AllIn(kids, s.valid);
    width, height := 0, 0;
    ps := [];
    var i := 0;
    while i < |kids|
      invariant 0 <= i <= |kids| && |ps| == i
      invariant LayoutFrame(s)
      invariant Point(width, height) == Extent(ps)
      invariant settled ==> s.geo == old(s.geo) && s.valid == old(s.valid) && s.log == old(s.log)
      invariant settled ==> ps == PrefsOf(s.nodes, s.geo, kids[..i])
    {
      ghost var l0 := s.log;
      var p;
      o, p := MeasureChild(s, v, kids[i], fuel);
      PrefixTrans(old(s.log), l0, s.log);
      if o.Thrown? {
        return o, 0, 0, ps;
      }
      PrefsOfOneMore(s.nodes, s.geo, kids, i);
      ExtentStep(ps, p);
      width, height := Max(width, p.x + p.w), Max(height, p.y + p.h);
      ps := ps + [p];
      i := i + 1;
    }
    TakeAll(kids);
    if panel {
      width, height := Max(width, v.visible.w), Max(height, v.visible.h);
    }
    o := Normal;
  }

  lemma PrefsOfOneMore(m: Store, gm: Geos, ks: seq<Id>, i: nat)
    requires i < |ks| && forall k | k in ks :: k in m
    ensures PrefsOf(m, gm, ks[..i + 1]) == PrefsOf(m, gm, ks[..i]) + [PreferredBounds(m[ks[i]], GeoOf(gm, ks[i]))]
  {
    assert ks[..i + 1][..i] == ks[..i];
  }

  /** One step of that loop: `if (!child.isValid()) child.validate();` and
      then `child.getPreferredBounds()`. */
  method MeasureChild(s: Scene, v: View, k: Id, fuel: nat) returns (o: Outcome, p: Rect)
    requires s.Sound() && k in s.nodes
    modifies s`geo, s`valid, s`log
    ensures o.Thrown? ==> o == Thrown(StackOverflow)
    ensures LayoutFrame(s)
    ensures o.Normal? ==> p == PreferredBounds(s.nodes[k], GeoOf(s.geo, k))
    ensures k in old(s.valid) ==> o == Normal && s.geo == old(s.geo) && s.valid == old(s.valid) && s.log == old(s.log)
    decreases fuel, 0
  {
    if k !in s.valid {
      if fuel == 0 {
        return Thrown(StackOverflow), Rect(0, 0, 0, 0);
      }
      o := Validate(s, v, k, fuel - 1);
      if o.Thrown? {
        return o, Rect(0, 0, 0, 0);
      }
    }
    o, p := Normal, PreferredBounds(s.nodes[k], GeoOf(s.geo, k));
  }

  /** FitToChildrenContainerLayout.layoutContainer: the container's bounds are
      set to the fitted box of its children's preferred bounds, measured in
      order, each after validating it; the result says whether the box
      differs from the bounds the container had when the layout began. When
      every child was valid, the measures are their preferred bounds and the
      container's bounds are what setBounds makes of the box. */
  method FitToChildrenLayout(s: Scene, v: View, c: Id, fuel: nat) returns (o: Outcome, changed: bool, ghost ps: seq<Rect>)
    requires s.Sound() && c in s.nodes && IsContainer(s.nodes[c].kind)
    modifies s`geo, s`valid, s`log
    ensures o.Thrown? ==> o == Thrown(StackOverflow)
    ensures LayoutFrame(s)
    ensures o.Normal? ==> changed == (FitBox(ps) != old(s.geo[c].bounds))
    ensures o.Normal? && AllIn(s.nodes[c].w.children, old(s.valid)) ==>
      ps == PrefsOf(s.nodes, old(s.geo), s.nodes[c].w.children)
      && s.geo[c].bounds == BoundsAfter(s.nodes[c], old(s.geo[c].bounds), FitBox(ps))
    decreases fuel, 2
  {
    var b0 := s.geo[c].bounds;
    var kids := s.nodes[c].w.children;
    EndsStored(s.nodes, s.rank, c);
    ghost var l0 := s.log;
    var box;
    o, box, ps := FitChildren(s, v, kids, fuel);
    if o.Thrown? {
      return o, false, ps;
    }
    ghost var l1 := s.log;
    o := SetBounds(s, c, box, fuel);
    PrefixTrans(l0, l1, s.log);
    changed := box != b0;
  }

  /** RootComponentLayout.layoutContainer: the container's size (not its
      location) is set to the root size of its children's preferred bounds,
      measured in order, each after validating it; the result says whether
      that size differs from the one the container had when the layout began. */
  method RootComponentLayout(s: Scene, v: View, c: Id, fuel: nat) returns (o: Outcome, changed: bool, ghost ps: seq<Rect>)
    requires s.Sound() && c in s.nodes && IsContainer(s.nodes[c].kind)
    modifies s`geo, s`valid, s`log
    ensures o.Thrown? ==> o == Thrown(StackOverflow)
    ensures LayoutFrame(s)
    ensures o.Normal? ==>
      var r := RootSize(ps, PanelOf(s.nodes, s.rank, c), v.visible);
      changed == (r.x != old(s.geo[c].bounds.w) || r.y != old(s.geo[c].bounds.h))
    ensures o.Normal? && AllIn(s.nodes[c].w.children, old(s.valid)) ==>
      var r := RootSize(ps, PanelOf(s.nodes, s.rank, c), v.visible);
      ps == PrefsOf(s.nodes, old(s.geo), s.nodes[c].w.children)
      && s.geo[c].bounds == SizedTo(s.nodes[c], old(s.geo[c].bounds), r.x, r.y)
    decreases fuel, 2
  {
    var b0 := s.geo[c].bounds;
    var kids := s.nodes[c].w.children;
    EndsStored(s.nodes, s.rank, c);
    var panel := PanelOf(s.nodes, s.rank, c);
    ghost var l0 := s.log;
    var width, height;
    o, width, height, ps := ReachChildren(s, v, kids, panel, fuel);
    if o.Thrown? {
      return o, false, ps;
    }
    ghost var l1 := s.log;
    o := SetSize(s, c, width, height, fuel);
    PrefixTrans(l0, l1, s.log);
    changed := width != b0.w || height != b0.h;
  }

  /** revalidate(): invalidate() followed by validate(). */
  method Revalidate(s: Scene, v: View, c: Id, fuel: nat) returns (o: Outcome)
    requires s.Sound() && c in s.nodes
    modifies s`geo, s`valid, s`log
    ensures o.Thrown? ==> o == Thrown(StackOverflow)
    ensures LayoutFrame(s)
    ensures o.Normal? && !MissingEnd(s.nodes[c]) ==> c in s.valid
    ensures o.Normal? && MissingEnd(s.nodes[c]) ==> c !in s.valid
  {
    ghost var l0 := s.log;
    o := Invalidate(s, c, fuel);
    if o.Thrown? {
      return;
    }
    ghost var l1 := s.log;
    o := Validate(s, v, c, fuel);
    PrefixTrans(l0, l1, s.log);
  }
}
