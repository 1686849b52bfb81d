/**
 * The operations of ComponentPanel on its own registries: the root list, the
 * panel state and the active tool, the preferred size it reports to its
 * scroll pane, and the scroll increments.
 */
module PanelOps {
  import opened Outcomes
  import opened Seqs
  import opened Geometry
  import opened Nodes
  import opened Graph
  import opened Walks
  import opened Panels
  import opened Validation
  import opened Layouts
  import opened Connections
  import opened Structure

  // ---------------------------------------------------------------------------
  // The root list.

  /** A store whose graph and classes are unchanged keeps the panel's part of
      the invariant. */
  lemma PanelOkKept(roots: seq<Id>, fixed: set<Id>, m: Store, m': Store, h: Holders)
    requires PanelOk(roots, fixed, m, h) && ShapeOf(m') == ShapeOf(m)
    ensures PanelOk(roots, fixed, m', h)
  {
    assert m'.Keys == ShapeOf(m').Keys;
    forall r | r in fixed ensures r in m' && m'[r].kind == Root {
      assert ShapeOf(m')[r] == ShapeOf(m)[r];
    }
  }

  /** The notes of fireRootComponentEvent: every root listener hears the
      event, in order, unless root notification is disabled. */
  function RootNotes(notify: bool, ls: seq<Listener>, ev: Event): (r: seq<Note>)
    ensures !notify ==> r == []
    ensures notify ==> |r| == |ls| && forall i | 0 <= i < |ls| :: r[i] == Heard(ls[i], ev)
  {
    if notify then Deliveries(ls, ev) else []
  }

  /** What setComponentPanel notes when it changes the panel reachable from
      r: the property change and r's repaint. */
  function PanelNotes(changed: bool, m: Store, gm: Geos, ghost rank: map<Id, nat>, r: Id): seq<Note>
    requires Walkable(m, rank) && r in m
  {
    if changed then [Changed(r, PanelProp)] + SelfRepaint(m, gm, rank, r) else []
  }

  /** A new entry of the root list keeps the list's part of the invariant. */
  lemma PanelOkInsert(roots: seq<Id>, fixed: set<Id>, m: Store, h: Holders, i: nat, r: Id)
    requires PanelOk(roots, fixed, m, h) && r in m && r !in roots && i <= |roots|
    ensures PanelOk(InsertAt(roots, i, r), fixed, m, h) && r in InsertAt(roots, i, r)
  {
    InsertAtNoDup(roots, i, r);
    forall y | y in InsertAt(roots, i, r) ensures y in m {
      InsertAtMembers(roots, i, r, y);
    }
    InsertAtMembers(roots, i, r, r);
  }

  /** A removed entry of the root list keeps the list's part of the invariant. */
  lemma PanelOkRemove(roots: seq<Id>, fixed: set<Id>, m: Store, h: Holders, i: nat)
    requires PanelOk(roots, fixed, m, h) && i < |roots|
    ensures PanelOk(RemoveAt(roots, i), fixed, m, h) && roots[i] !in RemoveAt(roots, i)
  {
    forall y | y in RemoveAt(roots, i) ensures y in m {
      RemoveAtMembers(roots, i, y);
    }
    RemoveAtMembers(roots, i, roots[i]);
  }

  /** The second half of addRootComponent and removeRootComponent, once the
      list has changed: root k takes the panel (b) or lets go of it (!b)
      through setComponentPanel, and when that does not throw the root
      listeners hear the change. */
  method Announce(p: ComponentPanel, k: Id, b: bool, ch: Change) returns (o: Outcome)
    requires p.Valid() && k in p.scene.nodes
    modifies p.scene`nodes, p.scene`log
    ensures p.Valid() && ShapeOf(p.scene.nodes) == ShapeOf(old(p.scene.nodes))
    ensures b && !old(IsRootComponent(p.scene.nodes, p.scene.rank, p.roots, k)) ==> o == Thrown(Runtime) && unchanged(p.scene)
    ensures !(b && !old(IsRootComponent(p.scene.nodes, p.scene.rank, p.roots, k))) ==>
      o == Normal
      && p.scene.nodes == (if old(PanelOf(p.scene.nodes, p.scene.rank, k)) == b then old(p.scene.nodes)
                           else WithPanel(old(p.scene.nodes), k, b))
      && p.scene.log == old(p.scene.log) + PanelNotes(old(PanelOf(p.scene.nodes, p.scene.rank, k)) != b, p.scene.nodes, p.scene.geo, p.scene.rank, k)
                        + RootNotes(p.rootNotify, p.rootListeners, RootEv(ch, k))
  {
    var s := p.scene;
    ghost var m0, l0 := s.nodes, s.log;
    ghost var changed := PanelOf(s.nodes, s.rank, k) != b;
    o := SetComponentPanel(s, p.ViewOf(), k, b);
    PanelOkKept(p.roots, p.FixedRoots(), m0, s.nodes, p.state.Snapshot());
    if o.Thrown? {
      return;
    }
    assert s.log == l0 + PanelNotes(changed, s.nodes, s.geo, s.rank, k);
    s.log := s.log + RootNotes(p.rootNotify, p.rootListeners, RootEv(ch, k));
  }

  /** addRootComponent(index, root): null throws; a root already listed
      changes nothing; otherwise ArrayList.add inserts it (a bad index
      throws before anything changes), the root takes the panel, which
      throws when the root is not a root component by then (a container
      with a parent from which no panel is reachable), and otherwise the
      root listeners hear ROOT_COMPONENT_ADDED. */
  method AddRootComponent(p: ComponentPanel, i: int, r: Option<Id>) returns (o: Outcome)
    requires p.Valid() && (r.Some? ==> r.value in p.scene.nodes && IsContainer(p.scene.nodes[r.value].kind))
    modifies p`roots, p.scene`nodes, p.scene`log
    ensures p.Valid() && ShapeOf(p.scene.nodes) == ShapeOf(old(p.scene.nodes))
    ensures r.None? ==> o == Thrown(NullPointer) && unchanged(p, p.scene)
    ensures r.Some? && r.value in old(p.roots) ==> o == Normal && unchanged(p, p.scene)
    ensures r.Some? && r.value !in old(p.roots) && !(0 <= i <= old(|p.roots|)) ==>
      o == Thrown(IndexOutOfBounds) && unchanged(p, p.scene)
    ensures r.Some? && r.value !in old(p.roots) && 0 <= i <= old(|p.roots|) ==>
      p.roots == InsertAt(old(p.roots), i, r.value)
      && (o == Thrown(Runtime) <==>
            old(p.scene.nodes[r.value].w.parent).Some? && !old(PanelOf(p.scene.nodes, p.scene.rank, r.value)))
      && (o.Thrown? ==> unchanged(p.scene))
      && (o.Normal? ==>
            p.scene.nodes == (if old(PanelOf(p.scene.nodes, p.scene.rank, r.value)) then old(p.scene.nodes)
                              else WithPanel(old(p.scene.nodes), r.value, true))
            && p.scene.log == old(p.scene.log)
                              + PanelNotes(!old(PanelOf(p.scene.nodes, p.scene.rank, r.value)), p.scene.nodes, p.scene.geo, p.scene.rank, r.value)
                              + RootNotes(p.rootNotify, p.rootListeners, RootEv(Added, r.value)))
  {
    if r.None? {
      return Thrown(NullPointer);
    }
    var k := r.value;
    if k in p.roots {
      return Normal;
    }
    if !(0 <= i <= |p.roots|) {
      return Thrown(IndexOutOfBounds);
    }
    PanelOkInsert(p.roots, p.FixedRoots(), p.scene.nodes, p.state.Snapshot(), i, k);
    p.roots := InsertAt(p.roots, i, k);
    o := Announce(p, k, true, Added);
  }

  /** addRootComponent(root): at the end of the list. */
  method AppendRootComponent(p: ComponentPanel, r: Option<Id>) returns (o: Outcome)
    requires p.Valid() && (r.Some? ==> r.value in p.scene.nodes && IsContainer(p.scene.nodes[r.value].kind))
    modifies p`roots, p.scene`nodes, p.scene`log
    ensures p.Valid()
    ensures r.None? ==> o == Thrown(NullPointer)
    ensures r.Some? && r.value !in old(p.roots) ==> p.roots == old(p.roots) + [r.value]
    ensures r.Some? && r.value in old(p.roots) ==> o == Normal && p.roots == old(p.roots)
  {
    o := AddRootComponent(p, |p.roots|, r);
    if r.Some? && r.value !in old(p.roots) {
      assert InsertAt(old(p.roots), |old(p.roots)|, r.value) == old(p.roots) + [r.value];
    }
  }

  /** removeRootComponent(index): a bad index throws; otherwise the entry
      leaves the list, it lets go of the panel (setComponentPanel(null),
      which notes nothing when no panel was reachable from it) and the root
      listeners hear ROOT_COMPONENT_REMOVED. */
  method RemoveRootComponentAt(p: ComponentPanel, i: int) returns (o: Outcome)
    requires p.Valid()
    modifies p`roots, p.scene`nodes, p.scene`log
    ensures p.Valid() && ShapeOf(p.scene.nodes) == ShapeOf(old(p.scene.nodes))
    ensures !(0 <= i < old(|p.roots|)) ==> o == Thrown(IndexOutOfBounds) && unchanged(p, p.scene)
    ensures 0 <= i < old(|p.roots|) ==>
      var r := old(p.roots[i]);
      o == Normal && p.roots == RemoveAt(old(p.roots), i) && r !in p.roots
      && p.scene.nodes == (if old(PanelOf(p.scene.nodes, p.scene.rank, r)) then WithPanel(old(p.scene.nodes), r, false)
                           else old(p.scene.nodes))
      && p.scene.log == old(p.scene.log) + PanelNotes(old(PanelOf(p.scene.nodes, p.scene.rank, r)), p.scene.nodes, p.scene.geo, p.scene.rank, r)
                        + RootNotes(p.rootNotify, p.rootListeners, RootEv(Removed, r))
  {
    if !(0 <= i < |p.roots|) {
      return Thrown(IndexOutOfBounds);
    }
    var k := p.roots[i];
    PanelOkRemove(p.roots, p.FixedRoots(), p.scene.nodes, p.state.Snapshot(), i);
    p.roots := RemoveAt(p.roots, i);
    o := Announce(p, k, false, Removed);
  }

  /** removeRootComponent(root): nothing for null or a root the list does not
      hold; otherwise removeRootComponent at its index. */
  method RemoveRootComponent(p: ComponentPanel, r: Option<Id>) returns (o: Outcome)
    requires p.Valid()
    modifies p`roots, p.scene`nodes, p.scene`log
    ensures p.Valid() && o == Normal
    ensures r.None? || r.value !in old(p.roots) ==> unchanged(p, p.scene)
    ensures r.Some? && r.value in old(p.roots) ==>
      p.roots == Remove(old(p.roots), r.value) && r.value !in p.roots && |p.roots| == old(|p.roots|) - 1
  {
    if r.None? {
      return Normal;
    }
    var i := IndexOf(p.roots, r.value);
    if i > -1 {
      RemoveMembers(p.roots, r.value, r.value);
      o := RemoveRootComponentAt(p, i);
    } else {
      o := Normal;
    }
  }

  /** Adding a root and removing it again leaves the root list as it was. */
  lemma {:induction false} RootListRoundTrip(roots: seq<Id>, i: nat, r: Id)
    requires i <= |roots| && r !in roots
    ensures Remove(InsertAt(roots, i, r), r) == roots
  {
    var l := InsertAt(roots, i, r);
    InsertAtMembers(roots, i, r, r);
    assert l[..i] == roots[..i];
    assert r !in l[..i];
    assert IndexOf(l, r) == i;
    assert l[i + 1..] == roots[i..];
    assert RemoveAt(l, i) == roots[..i] + roots[i..];
    assert roots[..i] + roots[i..] == roots;
  }

  // ---------------------------------------------------------------------------
  // The panel state and the active tool.

  /** setComponentPanelState(state): null throws; the same state object
      changes nothing; otherwise the panel takes it and fires the change. */
  method SetComponentPanelState(p: ComponentPanel, st: PanelState?) returns (o: Outcome)
    requires p.Valid() && (st != null ==> HoldersIn(st, p.scene.nodes))
    modifies p`state, p.scene`log
    ensures p.Valid()
    ensures st == null ==> o == Thrown(IllegalArgument) && unchanged(p, p.scene)
    ensures st != null && st == old(p.state) ==> o == Normal && unchanged(p, p.scene)
    ensures st != null && st != old(p.state) ==>
      o == Normal && p.state == st && p.scene.log == old(p.scene.log) + [PanelChanged(StateProp)]
  {
    if st == null {
      return Thrown(IllegalArgument);
    }
    if st == p.state {
      return Normal;
    }
    p.state := st;
    p.scene.log := p.scene.log + [PanelChanged(StateProp)];
    o := Normal;
  }

  /** The panel's cursor field once tool u (null: none) is deactivated:
      a cursor the tool saved is put back. */
  function CursorAfter(u: Option<Option<Ref>>, cursor: Option<Ref>): Option<Ref> {
    if u.Some? && u.value.Some? then u.value else cursor
  }

  /** setActiveComponentPanelTool(tool): the same tool changes nothing;
      otherwise the old tool is deactivated while it is still the active one
      (so it does not throw), the panel takes the new tool, which is
      activated, and the panel fires the change. */
  method SetActiveComponentPanelTool(p: ComponentPanel, t: Tool?)
    modifies p`activeTool, p`cursor, p.scene`log, p.activeTool, t
    ensures p.activeTool == t
    ensures t == old(p.activeTool) ==> unchanged(p, p.scene) && (t != null ==> unchanged(t))
    ensures t != old(p.activeTool) ==> p.scene.log == old(p.scene.log) + [PanelChanged(ActiveToolProp)]
    ensures t != old(p.activeTool) && old(p.activeTool) != null ==>
      var u := old(p.activeTool);
      !u.active && u.oldCursor == None && u.fired == old(u.fired) + [ActiveProp(false)] && u.values == old(u.values)
    ensures t != old(p.activeTool) ==>
      var c1 := CursorAfter(if old(p.activeTool) == null then None else Some(old(p.activeTool.oldCursor)), old(p.cursor));
      if t != null && t.GetValue(CURSOR_KEY).Some? then
        p.cursor == t.GetValue(CURSOR_KEY) && t.oldCursor == Some(Shown(c1))
      else p.cursor == c1 && (t != null ==> t.oldCursor == old(t.oldCursor))
    ensures t != old(p.activeTool) && t != null ==>
      t.active && t.fired == old(t.fired) + [ActiveProp(true)] && t.values == old(t.values)
  {
    var u := p.activeTool;
    if u == t {
      return;
    }
    if u != null {
      var d := u.Deactivate(p);
    }
    p.activeTool := t;
    if t != null {
      var a := t.Activate(p);
    }
    p.scene.log := p.scene.log + [PanelChanged(ActiveToolProp)];
  }

  /** Activating a tool on a panel without one and then clearing the active
      tool leaves the panel showing the cursor it showed before. */
  method ToolRoundTrip(p: ComponentPanel, t: Tool)
    requires p.activeTool == null && t.oldCursor == None
    modifies p`activeTool, p`cursor, p.scene`log, t
    ensures p.activeTool == null && !t.active && t.oldCursor == None
    ensures p.GetCursor() == old(p.GetCursor())
    ensures p.scene.log == old(p.scene.log) + [PanelChanged(ActiveToolProp), PanelChanged(ActiveToolProp)]
  {
    SetActiveComponentPanelTool(p, t);
    SetActiveComponentPanelTool(p, null);
  }

  // ---------------------------------------------------------------------------
  // The size the panel reports to its scroll pane.

  /** The larger of v0 and every entry of xs, taken left to right as the
      loop of getPreferredSize takes them: at least v0 and every entry, and
      equal to v0 or to one of them. */
  function MaxOf(v0: int, xs: seq<int>): (r: int)
    ensures r >= v0 && forall i | 0 <= i < |xs| :: r >= xs[i]
    ensures r == v0 || r in xs
  {
    if xs == [] then v0
    else
      var m := MaxOf(v0, xs[..|xs| - 1]);
      assert forall i | 0 <= i < |xs| - 1 :: xs[..|xs| - 1][i] == xs[i];
      assert m in xs[..|xs| - 1] ==> m in xs;
      if xs[|xs| - 1] > m then xs[|xs| - 1] else m
  }

  /** The widths (w) or heights (!w) of the components rs in gm, in order. */
  function Extents(gm: Geos, rs: seq<Id>, w: bool): (r: seq<int>)
    requires forall i | 0 <= i < |rs| :: rs[i] in gm
    ensures |r| == |rs| && forall i | 0 <= i < |rs| :: r[i] == (if w then gm[rs[i]].bounds.w else gm[rs[i]].bounds.h)
  {
    if rs == [] then [] else Extents(gm, rs[..|rs| - 1], w) + [if w then gm[rs[|rs| - 1]].bounds.w else gm[rs[|rs| - 1]].bounds.h]
  }

  lemma MaxOfStep(v0: int, xs: seq<int>, x: int)
    ensures MaxOf(v0, xs + [x]) == if x > MaxOf(v0, xs) then x else MaxOf(v0, xs)
  {
    assert (xs + [x])[..|xs|] == xs;
  }

  lemma ExtentsStep(gm: Geos, rs: seq<Id>, i: nat, w: bool)
    requires i < |rs| && forall j | 0 <= j < |rs| :: rs[j] in gm
    ensures Extents(gm, rs[..i + 1], w) == Extents(gm, rs[..i], w) + [if w then gm[rs[i]].bounds.w else gm[rs[i]].bounds.h]
  {
    assert rs[..i + 1][..i] == rs[..i];
  }

  /** The roots of a panel have geometry. */
  lemma RootsPlaced(roots: seq<Id>, fixed: set<Id>, m: Store, h: Holders, gm: Geos)
    requires PanelOk(roots, fixed, m, h) && gm.Keys == m.Keys
    ensures forall j | 0 <= j < |roots| :: roots[j] in gm
  {
    forall j | 0 <= j < |roots| ensures roots[j] in gm {
      assert forall r | r in roots :: r in m;
      assert roots[j] in roots;
      assert roots[j] in m.Keys;
    }
  }

  /** The size getPreferredSize starts from: the Swing parent's when there is
      one, otherwise the panel's own. */
  function StartSize(h: Host): (int, int) {
    if h.parentSize.Some? then h.parentSize.value else (h.ownW, h.ownH)
  }

  /** getPreferredSize(): every root that is not valid is validated, then
      the size is the largest of the starting size and the width and height
      of every root, each read after its validation (ws and hs). With every
      root valid, nothing changes and the sizes are those the roots have. */
  method GetPreferredSize(p: ComponentPanel, fuel: nat) returns (o: Outcome, w: int, h: int, ghost ws: seq<int>, ghost hs: seq<int>)
    requires p.Valid()
    modifies p.scene`geo, p.scene`valid, p.scene`log
    ensures p.Valid()
    ensures o.Thrown? ==> o == Thrown(StackOverflow)
    ensures o.Normal? ==>
      |ws| == |hs| == |p.roots| && w == MaxOf(StartSize(p.host).0, ws) && h == MaxOf(StartSize(p.host).1, hs)
    ensures forall i | 0 <= i < |p.roots| :: p.roots[i] in p.scene.geo
    ensures (forall r | r in p.roots :: r in old(p.scene.valid)) ==>
      o == Normal && p.scene.geo == old(p.scene.geo) && p.scene.valid == old(p.scene.valid) && p.scene.log == old(p.scene.log)
      && ws == Extents(p.scene.geo, p.roots, true) && hs == Extents(p.scene.geo, p.roots, false)
  {
    RootsPlaced(p.roots, p.FixedRoots(), p.scene.nodes, p.state.Snapshot(), p.scene.geo);
    var start := StartSize(p.host);
    o, w, h, ws, hs := RootsSize(p.scene, p.ViewOf(), start.0, start.1, fuel);
  }

  /** The loop of getPreferredSize over the roots of v, from the size
      (w0, h0). */
  method RootsSize(s: Scene, v: View, w0: int, h0: int, fuel: nat) returns (o: Outcome, w: int, h: int, ghost ws: seq<int>, ghost hs: seq<int>)
    requires s.Valid() && forall j | 0 <= j < |v.roots| :: v.roots[j] in s.geo
    modifies s`geo, s`valid, s`log
    ensures s.Valid() && forall j | 0 <= j < |v.roots| :: v.roots[j] in s.geo
    ensures o.Thrown? ==> o == Thrown(StackOverflow)
    ensures o.Normal? ==> |ws| == |hs| == |v.roots| && w == MaxOf(w0, ws) && h == MaxOf(h0, hs)
    ensures (forall r | r in v.roots :: r in old(s.valid)) ==>
      o == Normal && s.geo == old(s.geo) && s.valid == old(s.valid) && s.log == old(s.log)
      && ws == Extents(s.geo, v.roots, true) && hs == Extents(s.geo, v.roots, false)
  {
    ghost var allValid := forall r | r in v.roots :: r in s.valid;
    w, h := w0, h0;
    ws, hs := [], [];
    o := Normal;
    var i := 0;
    while i < |v.roots|
      invariant s.Valid() && 0 <= i <= |v.roots| && o == Normal
      invariant forall j | 0 <= j < |v.roots| :: v.roots[j] in s.geo
      invariant |ws| == |hs| == i && w == MaxOf(w0, ws) && h == MaxOf(h0, hs)
      invariant allValid ==> s.geo == old(s.geo) && s.valid == old(s.valid) && s.log == old(s.log)
      invariant allValid ==> ws == Extents(s.geo, v.roots[..i], true) && hs == Extents(s.geo, v.roots[..i], false)
    {
      var r := v.roots[i];
      assert allValid ==> r in s.valid by {
        assert r in v.roots;
      }
      var b;
      o, b := ValidRootBounds(s, v, r, fuel);
      if o.Thrown? {
        return;
      }
      MaxOfStep(w0, ws, b.w);
      MaxOfStep(h0, hs, b.h);
      if allValid {
        ExtentsStep(s.geo, v.roots, i, true);
        ExtentsStep(s.geo, v.roots, i, false);
      }
      ws, hs := ws + [b.w], hs + [b.h];
      if b.w > w {
        w := b.w;
      }
      if b.h > h {
        h := b.h;
      }
      i := i + 1;
    }
    assert v.roots[..i] == v.roots;
  }

  /** One turn of the loop of getPreferredSize: the root r is validated
      when it is not valid, and its bounds are read. */
  method ValidRootBounds(s: Scene, v: View, r: Id, fuel: nat) returns (o: Outcome, b: Rect)
    requires s.Valid() && r in s.geo
    modifies s`geo, s`valid, s`log
    ensures s.Valid() && s.geo.Keys == old(s.geo.Keys)
    ensures o.Thrown? ==> o == Thrown(StackOverflow)
    ensures b == s.geo[r].bounds
    ensures r in old(s.valid) ==> o == Normal && s.geo == old(s.geo) && s.valid == old(s.valid) && s.log == old(s.log)
  {
    o := Normal;
    if r !in s.valid {
      o := Validate(s, v, r, fuel);
    }
    b := s.geo[r].bounds;
  }

  // ---------------------------------------------------------------------------
  // Scrolling.

  /** SwingConstants.HORIZONTAL and SwingConstants.VERTICAL. */
  const HORIZONTAL := 0
  const VERTICAL := 1

  /** The side of the visible area a scroll along the orientation runs
      over, or None for any other orientation. */
  function ScrollSide(visible: Rect, orientation: int): Option<int> {
    if orientation == HORIZONTAL then Some(visible.w)
    else if orientation == VERTICAL then Some(visible.h)
    else None
  }

  /** getScrollableUnitIncrement: a tenth of the side, truncated toward
      zero; 0 for any other orientation. */
  function UnitIncrement(visible: Rect, orientation: int, direction: int): (r: int)
    ensures ScrollSide(visible, orientation).None? ==> r == 0
    ensures ScrollSide(visible, orientation).Some? && ScrollSide(visible, orientation).value >= 0 ==>
      0 <= 10 * r <= ScrollSide(visible, orientation).value < 10 * r + 10
    ensures ScrollSide(visible, orientation).Some? && ScrollSide(visible, orientation).value < 0 ==>
      10 * r - 10 < ScrollSide(visible, orientation).value <= 10 * r <= 0
  {
    var side := ScrollSide(visible, orientation);
    if side.Some? then JavaDiv(side.value, 10) else 0
  }

  /** getScrollableBlockIncrement: the whole side; 0 for any other
      orientation. */
  function BlockIncrement(visible: Rect, orientation: int, direction: int): (r: int)
    ensures r == (if orientation == HORIZONTAL then visible.w else if orientation == VERTICAL then visible.h else 0)
  {
    var side := ScrollSide(visible, orientation);
    if side.Some? then side.value else 0
  }

  /** Ten unit increments never overshoot a block, and eleven always do
      once the side is positive: a block is ten units, up to the remainder. */
  lemma UnitsPerBlock(visible: Rect, orientation: int, direction: int)
    requires BlockIncrement(visible, orientation, direction) >= 0
    ensures var u, b := UnitIncrement(visible, orientation, direction), BlockIncrement(visible, orientation, direction);
      0 <= 10 * u <= b && (b > 0 ==> b < 10 * u + 10) && (u == 0 <==> b < 10)
  {
  }
}
