/**
 * DefaultComponent.setMouseOver and the ComponentStateMouseHandler every
 * DefaultComponent registers on itself: the mouse-over flag, the panel
 * state's moused-over slot and the panel cursor a component saves while the
 * mouse is over it.
 */
module Hovering {
  import opened Outcomes
  import opened Geometry
  import opened Nodes
  import opened Graph
  import opened Walks
  import opened Panels
  import opened Components

  // ---------------------------------------------------------------------------
  // setMouseOver on values.

  /** What setMouseOver sees of a panel: the components whose mouse-over
      flag is set, every component's saved cursor (oldCursor), the panel
      state's holders, the panel cursor, the scene's notes and the slots
      whose change the state fired. */
  datatype Hover = Hover(on: set<Id>, saved: map<Id, Option<Ref>>, hs: Holders, cursor: Option<Ref>,
                         notes: seq<Note>, fired: seq<Slot>)

  /** An entry of a cursor map; an absent entry is null. */
  function CursorAt(cs: map<Id, Option<Ref>>, c: Id): Option<Ref> {
    if c in cs then cs[c] else None
  }

  /** DefaultComponent.setMouseOver(b) on c, given every component's own
      cursor (own) and the components that reach a panel (reach): an equal
      value changes nothing; otherwise the flag changes, which is noted, and
      when a panel is reachable the setter goes on as HoverSettled says. */
  function Hovered(st: Hover, own: map<Id, Option<Ref>>, reach: set<Id>, c: Id, b: bool): (r: Hover)
    decreases if b then 1 else 0, st.on, 1
  {
    if (c in st.on) == b then st
    else
      var st1 := st.(on := if b then st.on + {c} else st.on - {c},
                     notes := st.notes + [Changed(c, FlagProp(MouseOver))]);
      if c !in reach then st1 else HoverSettled(st1, own, reach, c)
  }

  /** The rest of setMouseOver once c's flag is written and a panel is
      reachable: the FOCUSED component (as written) is unset through the same
      setter; the moused-over slot then holds c when c is still over, else
      null; a component that is over and has a cursor of its own saves the
      panel cursor and installs its own, and one that is not over puts its
      saved cursor back on the panel and forgets it. */
  function HoverSettled(st: Hover, own: map<Id, Option<Ref>>, reach: set<Id>, c: Id): (r: Hover)
    decreases 0, st.on, 2
  {
    var st2 := if st.hs.Get(FocusedSlot).None? then st else Hovered(st, own, reach, st.hs.Get(FocusedSlot).value, false);
    var h := if c in st2.on then Some(c) else None;
    var st3 := st2.(hs := st2.hs.Set(MousedOverSlot, h),
                    fired := if st2.hs.Get(MousedOverSlot) == h then st2.fired else st2.fired + [MousedOverSlot]);
    if c !in st3.on then st3.(cursor := CursorAt(st3.saved, c), saved := st3.saved[c := None])
    else if CursorAt(own, c).Some? then st3.(saved := st3.saved[c := Some(Shown(st3.cursor))], cursor := CursorAt(own, c))
    else st3
  }

  /** setMouseOver changes the flag of c and of the focused component and no
      other, turns on at most c and only when b, leaves the focused and
      mouse-pressed slots alone, and leaves the moused-over slot as it was,
      null, or (when b) c. */
  lemma {:induction false} HoveredFrame(st: Hover, own: map<Id, Option<Ref>>, reach: set<Id>, c: Id, b: bool)
    ensures var r := Hovered(st, own, reach, c, b);
      r.on <= (if b then st.on + {c} else st.on - {c})
      && (forall d | d != c && Some(d) != st.hs.Get(FocusedSlot) :: d in r.on <==> d in st.on)
      && (forall u | u != MousedOverSlot :: r.hs.Get(u) == st.hs.Get(u))
      && (r.hs.Get(MousedOverSlot) == st.hs.Get(MousedOverSlot) || r.hs.Get(MousedOverSlot) == None
          || (b && r.hs.Get(MousedOverSlot) == Some(c)))
    decreases if b then 1 else 0, st.on
  {
    if (c in st.on) == b {
      return;
    }
    var st1 := st.(on := if b then st.on + {c} else st.on - {c},
                   notes := st.notes + [Changed(c, FlagProp(MouseOver))]);
    if c in reach && st.hs.Get(FocusedSlot).Some? {
      HoveredFrame(st1, own, reach, st.hs.Get(FocusedSlot).value, false);
    }
  }

  /** setMouseOver appends to the notes only mouse-over changes of c and of
      the focused component. */
  lemma {:induction false} HoveredNotes(st: Hover, own: map<Id, Option<Ref>>, reach: set<Id>, c: Id, b: bool)
    ensures FlagChanges(st.notes, Hovered(st, own, reach, c, b).notes, MouseOver, c, st.hs.Get(FocusedSlot))
    decreases if b then 1 else 0, st.on
  {
    if (c in st.on) == b {
      return;
    }
    var st1 := st.(on := if b then st.on + {c} else st.on - {c},
                   notes := st.notes + [Changed(c, FlagProp(MouseOver))]);
    if c in reach && st.hs.Get(FocusedSlot).Some? {
      HoveredNotes(st1, own, reach, st.hs.Get(FocusedSlot).value, false);
    }
  }

  /** What setMouseOver promises when the value changes: c's flag becomes b,
      unless c is the focused component of the panel, in which case it
      unsets itself; with a panel the moused-over slot then names c exactly
      when c is over, and a focused component other than c is no longer
      over; without a panel only the flag and its one note change. */
  lemma {:induction false} HoveredSpec(st: Hover, own: map<Id, Option<Ref>>, reach: set<Id>, c: Id, b: bool)
    requires (c in st.on) != b
    ensures var r := Hovered(st, own, reach, c, b);
      (c in r.on) == (b && !(c in reach && st.hs.Get(FocusedSlot) == Some(c)))
      && (c in reach ==> r.hs.Get(MousedOverSlot) == if c in r.on then Some(c) else None)
      && (c !in reach ==> r == st.(on := if b then st.on + {c} else st.on - {c},
                                   notes := st.notes + [Changed(c, FlagProp(MouseOver))]))
      && (c in reach && st.hs.Get(FocusedSlot).Some? ==> st.hs.Get(FocusedSlot).value !in r.on)
  {
    var st1 := st.(on := if b then st.on + {c} else st.on - {c},
                   notes := st.notes + [Changed(c, FlagProp(MouseOver))]);
    if c in reach && st.hs.Get(FocusedSlot).Some? {
      var f := st.hs.Get(FocusedSlot).value;
      HoveredFrame(st1, own, reach, f, false);
    }
  }

  /** No focused component is over, or the focused one is c itself: the
      eviction setMouseOver makes then moves no other component. */
  predicate Quiet(st: Hover, c: Id) {
    st.hs.Get(FocusedSlot).None? || (st.hs.Get(FocusedSlot).value != c && st.hs.Get(FocusedSlot).value !in st.on)
  }

  /** The panel cursor, when no other focused component is over: entering a
      component with a cursor of its own saves the panel cursor as it is
      shown and installs the component's cursor; entering one without a
      cursor leaves the panel cursor alone; leaving puts back what was saved
      (null when nothing was) and forgets it. */
  lemma HoverCursor(st: Hover, own: map<Id, Option<Ref>>, reach: set<Id>, c: Id, b: bool)
    requires c in reach && (c in st.on) != b && Quiet(st, c)
    ensures var r := Hovered(st, own, reach, c, b);
      r.on == (if b then st.on + {c} else st.on - {c})
      && r.notes == st.notes + [Changed(c, FlagProp(MouseOver))]
      && r.hs == st.hs.Set(MousedOverSlot, if b then Some(c) else None)
      && (b && CursorAt(own, c).Some? ==> r.cursor == CursorAt(own, c) && r.saved == st.saved[c := Some(Shown(st.cursor))])
      && (b && CursorAt(own, c).None? ==> r.cursor == st.cursor && r.saved == st.saved)
      && (!b ==> r.cursor == CursorAt(st.saved, c) && r.saved == st.saved[c := None])
  {
    var st1 := st.(on := if b then st.on + {c} else st.on - {c},
                   notes := st.notes + [Changed(c, FlagProp(MouseOver))]);
    if st.hs.Get(FocusedSlot).Some? {
      var f := st.hs.Get(FocusedSlot).value;
      assert f !in st1.on;
      assert Hovered(st1, own, reach, f, false) == st1;
    }
    assert Hovered(st, own, reach, c, b) == HoverSettled(st1, own, reach, c);
  }

  /** The focused component cannot be moused over, as written: entering it
      unsets its flag again through the eviction, leaves the moused-over slot
      null and resets the panel cursor to null, after two notes of its
      flag. */
  lemma FocusedCannotHover(st: Hover, own: map<Id, Option<Ref>>, reach: set<Id>, c: Id)
    requires c in reach && st.hs.Get(FocusedSlot) == Some(c) && c !in st.on
    ensures var r := Hovered(st, own, reach, c, true);
      r.on == st.on && r.hs == st.hs.Set(MousedOverSlot, None) && r.cursor == None && r.saved == st.saved[c := None]
      && r.notes == st.notes + [Changed(c, FlagProp(MouseOver)), Changed(c, FlagProp(MouseOver))]
  {
    var st1 := st.(on := st.on + {c}, notes := st.notes + [Changed(c, FlagProp(MouseOver))]);
    var st1b := st1.(on := st.on, notes := st1.notes + [Changed(c, FlagProp(MouseOver))]);
    assert st1.on - {c} == st.on;
    assert Hovered(st1b, own, reach, c, false) == st1b;
    var st2 := HoverSettled(st1b, own, reach, c);
    assert Hovered(st1, own, reach, c, false) == st2;
    assert st2.on == st.on && st2.saved == st.saved[c := None] && st2.hs == st.hs.Set(MousedOverSlot, None);
    assert Hovered(st, own, reach, c, true) == HoverSettled(st1, own, reach, c);
  }

  /** Entering and then leaving a component with a cursor of its own, while
      no other focused component is over, restores the panel cursor as it
      was shown, the flags and every slot but the moused-over one, which
      ends null. */
  lemma HoverRoundTrip(st: Hover, own: map<Id, Option<Ref>>, reach: set<Id>, c: Id)
    requires c in reach && c !in st.on && Quiet(st, c) && CursorAt(own, c).Some?
    ensures var r := Hovered(Hovered(st, own, reach, c, true), own, reach, c, false);
      r.on == st.on && r.cursor == Some(Shown(st.cursor)) && r.hs == st.hs.Set(MousedOverSlot, None)
      && r.saved == st.saved[c := None]
  {
    HoverCursor(st, own, reach, c, true);
    var r1 := Hovered(st, own, reach, c, true);
    HoverCursor(r1, own, reach, c, false);
  }

  // ---------------------------------------------------------------------------
  // The store side.

  /** Every component's saved panel cursor. */
  function OldCursors(m: Store): (r: map<Id, Option<Ref>>)
    ensures r.Keys == m.Keys
  {
    map d | d in m :: m[d].a.oldCursor
  }

  /** Every component's own cursor. */
  function OwnCursors(m: Store): (r: map<Id, Option<Ref>>)
    ensures r.Keys == m.Keys
  {
    map d | d in m :: m[d].a.cursor
  }

  /** m with every mouse-over flag cleared and every saved cursor null: two
      stores with the same Hoverless store differ in those fields alone. */
  function Hoverless(m: Store): (r: Store)
    ensures r.Keys == m.Keys
  {
    map d | d in m :: m[d].(a := m[d].a.(on := m[d].a.on - {MouseOver}, oldCursor := None))
  }

  /** What setMouseOver sees of panel p. */
  function HoverView(p: ComponentPanel): Hover
    reads p, p.scene, p.state
  {
    Hover(FlagSet(p.scene.nodes, MouseOver), OldCursors(p.scene.nodes), p.state.Snapshot(), p.cursor, p.scene.log, p.state.fired)
  }

  /** Two stores with the same Hoverless store have the same components,
      classes, links, own cursors and panel references, and so the same
      components reach the panel. */
  lemma HoverlessKeeps(m: Store, m': Store, rank: map<Id, nat>)
    requires Hoverless(m') == Hoverless(m)
    ensures m'.Keys == m.Keys && ShapeOf(m') == ShapeOf(m) && OwnCursors(m') == OwnCursors(m)
    ensures forall d | d in m :: m'[d].kind == m[d].kind && m'[d].w == m[d].w && m'[d].a.panel == m[d].a.panel
    ensures Walkable(m, rank) ==> Walkable(m', rank) && ReachSet(m', rank) == ReachSet(m, rank)
  {
    forall d | d in m
      ensures m'[d].kind == m[d].kind && m'[d].w == m[d].w && m'[d].a.panel == m[d].a.panel && m'[d].a.cursor == m[d].a.cursor
    {
      assert Hoverless(m')[d] == Hoverless(m)[d];
    }
    assert ShapeOf(m') == ShapeOf(m);
    if Walkable(m, rank) {
      forall d | d in m ensures Walkable(m', rank) && PanelOf(m', rank, d) == PanelOf(m, rank, d) {
        PanelOfRestyled(m, m', rank, d);
      }
    }
  }

  /** A write of the mouse-over flag keeps the Hoverless store and the saved
      cursors and moves c in or out of the flag's set. */
  lemma OverStep(m: Store, c: Id, b: bool)
    requires c in m
    ensures var m' := WithFlag(m, c, MouseOver, b);
      Hoverless(m') == Hoverless(m) && OldCursors(m') == OldCursors(m)
      && FlagSet(m', MouseOver) == (if b then FlagSet(m, MouseOver) + {c} else FlagSet(m, MouseOver) - {c})
  {
    var m' := WithFlag(m, c, MouseOver, b);
    assert Toggled(m[c].a.on, MouseOver, b) - {MouseOver} == m[c].a.on - {MouseOver};
    assert Hoverless(m')[c] == Hoverless(m)[c];
  }

  /** The store with c's saved cursor replaced by r. */
  function WithOldCursor(m: Store, c: Id, r: Option<Ref>): (m': Store)
    requires c in m
    ensures m'.Keys == m.Keys && m'[c].a.oldCursor == r
  {
    Restyled(m, c, m[c].a.(oldCursor := r))
  }

  /** A write of a saved cursor keeps the Hoverless store and the flags and
      changes that one saved cursor. */
  lemma OldCursorStep(m: Store, c: Id, r: Option<Ref>)
    requires c in m
    ensures var m' := WithOldCursor(m, c, r);
      Hoverless(m') == Hoverless(m) && OldCursors(m') == OldCursors(m)[c := r] && FlagSet(m', MouseOver) == FlagSet(m, MouseOver)
  {
    var m' := WithOldCursor(m, c, r);
    assert Hoverless(m')[c] == Hoverless(m)[c];
  }

  // ---------------------------------------------------------------------------
  // setMouseOver on a panel.

  /** The flag write of setMouseOver: the view changes as it does at the
      start of Hovered, and the result says whether c reaches a panel. */
  method PutMouseOver(p: ComponentPanel, c: Id, b: bool) returns (inPanel: bool)
    requires p.scene.Valid() && c in p.scene.nodes && p.scene.nodes[c].Is(MouseOver) != b
    modifies p.scene`nodes, p.scene`log
    ensures p.scene.Valid() && Hoverless(p.scene.nodes) == Hoverless(old(p.scene.nodes))
    ensures HoverView(p) == old(HoverView(p)).(on := if b then old(HoverView(p)).on + {c} else old(HoverView(p)).on - {c},
                                               notes := old(HoverView(p)).notes + [Changed(c, FlagProp(MouseOver))])
    ensures inPanel == (c in ReachSet(old(p.scene.nodes), p.scene.rank))
  {
    var s := p.scene;
    OverStep(s.nodes, c, b);
    inPanel := PanelOf(s.nodes, s.rank, c);
    PutFlag(s, c, MouseOver, b);
  }

  /** The write of c's saved cursor. */
  method PutOldCursor(p: ComponentPanel, c: Id, r: Option<Ref>)
    requires p.scene.Valid() && c in p.scene.nodes
    modifies p.scene`nodes
    ensures p.scene.Valid() && Hoverless(p.scene.nodes) == Hoverless(old(p.scene.nodes))
    ensures HoverView(p) == old(HoverView(p)).(saved := old(HoverView(p)).saved[c := r])
  {
    var s := p.scene;
    OldCursorStep(s.nodes, c, r);
    RestyleKeeps(s.nodes, s.geo, s.rank, s.next, s.valid, c, s.nodes[c].a.(oldCursor := r));
    s.nodes := WithOldCursor(s.nodes, c, r);
  }

  /** The method form of Hovered: setMouseOver(b) on component c of the
      scene of panel p; own and reach are every component's own cursor and
      the components that reach a panel, which the setter keeps. The store
      changes in mouse-over flags and saved cursors alone. */
  method HoverOn(p: ComponentPanel, ghost own: map<Id, Option<Ref>>, ghost reach: set<Id>, c: Id, b: bool)
    requires p.scene.Valid() && HoldersIn(p.state, p.scene.nodes) && c in p.scene.nodes
    requires own == OwnCursors(p.scene.nodes) && reach == ReachSet(p.scene.nodes, p.scene.rank)
    modifies p.scene`nodes, p.scene`log, p.state, p`cursor
    ensures p.scene.Valid() && Hoverless(p.scene.nodes) == Hoverless(old(p.scene.nodes))
    ensures HoverView(p) == Hovered(old(HoverView(p)), own, reach, c, b)
    decreases if b then 1 else 0, FlagSet(p.scene.nodes, MouseOver), 1
  {
    if p.scene.nodes[c].Is(MouseOver) == b {
      return;
    }
    ActHover(p, own, reach, c, b);
  }

  /** HoverOn on a component whose flag it changes. */
  method ActHover(p: ComponentPanel, ghost own: map<Id, Option<Ref>>, ghost reach: set<Id>, c: Id, b: bool)
    requires p.scene.Valid() && HoldersIn(p.state, p.scene.nodes) && c in p.scene.nodes
    requires own == OwnCursors(p.scene.nodes) && reach == ReachSet(p.scene.nodes, p.scene.rank)
    requires p.scene.nodes[c].Is(MouseOver) != b
    modifies p.scene`nodes, p.scene`log, p.state, p`cursor
    ensures p.scene.Valid() && Hoverless(p.scene.nodes) == Hoverless(old(p.scene.nodes))
    ensures HoverView(p) == Hovered(old(HoverView(p)), own, reach, c, b)
    decreases if b then 1 else 0, FlagSet(p.scene.nodes, MouseOver), 0
  {
    ghost var v0 := HoverView(p);
    ghost var m0 := p.scene.nodes;
    ghost var v1 := v0.(on := if b then v0.on + {c} else v0.on - {c}, notes := v0.notes + [Changed(c, FlagProp(MouseOver))]);
    var inPanel := PutMouseOver(p, c, b);
    HoverlessKeeps(m0, p.scene.nodes, p.scene.rank);
    assert HoverView(p) == v1;
    if inPanel {
      SettleHover(p, own, reach, c);
    }
  }

  /** The method form of HoverSettled: c's flag is written and c reaches
      the panel. */
  method SettleHover(p: ComponentPanel, ghost own: map<Id, Option<Ref>>, ghost reach: set<Id>, c: Id)
    requires p.scene.Valid() && HoldersIn(p.state, p.scene.nodes) && c in p.scene.nodes
    requires own == OwnCursors(p.scene.nodes) && reach == ReachSet(p.scene.nodes, p.scene.rank)
    modifies p.scene`nodes, p.scene`log, p.state, p`cursor
    ensures p.scene.Valid() && Hoverless(p.scene.nodes) == Hoverless(old(p.scene.nodes))
    ensures HoverView(p) == HoverSettled(old(HoverView(p)), own, reach, c)
    decreases 0, FlagSet(p.scene.nodes, MouseOver), 2
  {
    ghost var v0 := HoverView(p);
    ghost var m0 := p.scene.nodes;
    var f := p.state.Holder(FocusedSlot);
    ghost var v2 := if f.None? then v0 else Hovered(v0, own, reach, f.value, false);
    if f.Some? {
      HoverOn(p, own, reach, f.value, false);
      HoverlessKeeps(m0, p.scene.nodes, p.scene.rank);
    }
    assert HoverView(p) == v2;
    SettleHoverCursor(p, own, c);
  }

  /** The end of HoverSettled, once the focused component is unset: the
      moused-over slot, then the panel cursor and c's saved cursor. */
  method SettleHoverCursor(p: ComponentPanel, ghost own: map<Id, Option<Ref>>, c: Id)
    requires p.scene.Valid() && c in p.scene.nodes && own == OwnCursors(p.scene.nodes)
    modifies p.scene`nodes, p.state, p`cursor
    ensures p.scene.Valid() && Hoverless(p.scene.nodes) == Hoverless(old(p.scene.nodes))
    ensures var v2 := old(HoverView(p));
      var h := if c in v2.on then Some(c) else None;
      var v3 := v2.(hs := v2.hs.Set(MousedOverSlot, h),
                    fired := if v2.hs.Get(MousedOverSlot) == h then v2.fired else v2.fired + [MousedOverSlot]);
      HoverView(p) == if c !in v3.on then v3.(cursor := CursorAt(v3.saved, c), saved := v3.saved[c := None])
                      else if CursorAt(own, c).Some? then v3.(saved := v3.saved[c := Some(Shown(v3.cursor))], cursor := CursorAt(own, c))
                      else v3
  {
    var over := p.scene.nodes[c].Is(MouseOver);
    p.state.SetHolder(MousedOverSlot, if over then Some(c) else None);
    SwapCursor(p, own, c);
  }

  /** The cursor part of HoverSettled. */
  method SwapCursor(p: ComponentPanel, ghost own: map<Id, Option<Ref>>, c: Id)
    requires p.scene.Valid() && c in p.scene.nodes && own == OwnCursors(p.scene.nodes)
    modifies p.scene`nodes, p`cursor
    ensures p.scene.Valid() && Hoverless(p.scene.nodes) == Hoverless(old(p.scene.nodes))
    ensures var v3 := old(HoverView(p));
      HoverView(p) == if c !in v3.on then v3.(cursor := CursorAt(v3.saved, c), saved := v3.saved[c := None])
                      else if CursorAt(own, c).Some? then v3.(saved := v3.saved[c := Some(Shown(v3.cursor))], cursor := CursorAt(own, c))
                      else v3
  {
    var s := p.scene;
    if !s.nodes[c].Is(MouseOver) {
      p.cursor := s.nodes[c].a.oldCursor;
      PutOldCursor(p, c, None);
    } else if s.nodes[c].a.cursor.Some? {
      PutOldCursor(p, c, Some(p.GetCursor()));
      p.cursor := s.nodes[c].a.cursor;
    }
  }

  /** The panel's part of the invariant survives setMouseOver: the store
      changes in flags and saved cursors alone and the holders as
      HoveredFrame allows. */
  lemma PanelOkHovered(roots: seq<Id>, fixed: set<Id>, m0: Store, m1: Store, rank: map<Id, nat>, v0: Hover,
                       own: map<Id, Option<Ref>>, reach: set<Id>, c: Id, b: bool)
    requires PanelOk(roots, fixed, m0, v0.hs) && c in m0
    requires Hoverless(m1) == Hoverless(m0)
    ensures PanelOk(roots, fixed, m1, Hovered(v0, own, reach, c, b).hs)
  {
    HoveredFrame(v0, own, reach, c, b);
    HoverlessKeeps(m0, m1, rank);
    HoldersInFrame(v0.hs, Hovered(v0, own, reach, c, b).hs, MousedOverSlot, c, m0, m1);
  }

  /** DefaultComponent.setMouseOver(b) on component c of panel p: what
      Hovered says, on the own cursors and the components that reach the
      panel before the call, and p stays valid. */
  method SetMouseOver(p: ComponentPanel, c: Id, b: bool)
    requires p.Valid() && c in p.scene.nodes
    modifies p.scene`nodes, p.scene`log, p.state, p`cursor
    ensures p.Valid() && Hoverless(p.scene.nodes) == Hoverless(old(p.scene.nodes))
    ensures HoverView(p) == Hovered(old(HoverView(p)), OwnCursors(old(p.scene.nodes)), ReachSet(old(p.scene.nodes), p.scene.rank), c, b)
  {
    ghost var m0 := p.scene.nodes;
    ghost var v0 := HoverView(p);
    ghost var own, reach := OwnCursors(p.scene.nodes), ReachSet(p.scene.nodes, p.scene.rank);
    HoverOn(p, own, reach, c, b);
    PanelOkHovered(p.roots, p.FixedRoots(), m0, p.scene.nodes, p.scene.rank, v0, own, reach, c, b);
  }

  // ---------------------------------------------------------------------------
  // ComponentStateMouseHandler.

  /** Two stores with the same store once flag f is cleared agree on every
      other flag. */
  lemma UnflaggedOthers(m: Store, m': Store, f: Flag, c: Id, g: Flag)
    requires Unflagged(m', f) == Unflagged(m, f) && c in m && g != f
    ensures c in m' && m'[c].Is(g) == m[c].Is(g)
  {
    assert Unflagged(m', f)[c] == Unflagged(m, f)[c];
    assert g in m'[c].a.on - {f} <==> g in m[c].a.on - {f};
  }

  /** Two stores with the same Hoverless store agree on every flag but the
      mouse-over flag. */
  lemma HoverlessOthers(m: Store, m': Store, c: Id, g: Flag)
    requires Hoverless(m') == Hoverless(m) && c in m && g != MouseOver
    ensures c in m' && m'[c].Is(g) == m[c].Is(g)
  {
    assert Hoverless(m')[c] == Hoverless(m)[c];
    assert g in m'[c].a.on - {MouseOver} <==> g in m[c].a.on - {MouseOver};
  }

  /** mouseReleased of the state handler at (x, y): mousePressed is cleared
      through setMousePressed(false), and when the point is outside the
      component while the mouse is over it, mouseOver is cleared through
      setMouseOver(false); so afterwards c is not pressed, and it is over
      exactly when it was and the release was inside. */
  method MouseReleased(p: ComponentPanel, c: Id, x: int, y: int)
    requires p.Valid() && c in p.scene.nodes
    modifies p.scene`nodes, p.scene`log, p.state, p`cursor
    ensures p.Valid() && c in p.scene.nodes
    ensures !p.scene.nodes[c].Is(MousePressed)
    ensures p.scene.nodes[c].Is(MouseOver)
         == (old(p.scene.nodes[c].Is(MouseOver)) && ContainsPoint(old(p.scene.nodes[c]), p.scene.geo[c], x, y))
  {
    var inside := ContainsPoint(p.scene.nodes[c], p.scene.geo[c], x, y);
    Unpress(p, c);
    if !inside && p.scene.nodes[c].Is(MouseOver) {
      Unhover(p, c);
    }
  }

  /** setMousePressed(false) on c: c is no longer pressed and keeps its
      mouse-over flag. */
  method Unpress(p: ComponentPanel, c: Id)
    requires p.Valid() && c in p.scene.nodes
    modifies p.scene`nodes, p.scene`log, p.state
    ensures p.Valid() && c in p.scene.nodes
    ensures !p.scene.nodes[c].Is(MousePressed) && p.scene.nodes[c].Is(MouseOver) == old(p.scene.nodes[c].Is(MouseOver))
  {
    ghost var m0 := p.scene.nodes;
    ghost var v0 := Components.View(p.scene, p.state, MousePressedSlot);
    ghost var may, reach := MaySet(p.scene.nodes, MousePressedSlot), ReachSet(p.scene.nodes, p.scene.rank);
    SetMousePressed(p, c, false);
    UnpressedStore(m0, p.scene.nodes, v0, may, reach, c);
  }

  /** The store after setMousePressed(false) on c: c is not pressed and
      keeps its mouse-over flag. */
  lemma UnpressedStore(m0: Store, m1: Store, v0: Claim, may: set<Id>, reach: set<Id>, c: Id)
    requires c in m0 && v0.on == FlagSet(m0, MousePressed) && may == MaySet(m0, MousePressedSlot)
    requires Unflagged(m1, MousePressed) == Unflagged(m0, MousePressed)
    requires FlagSet(m1, MousePressed) == Claimed(v0, may, reach, c, MousePressedSlot, false).on
    ensures c in m1 && !m1[c].Is(MousePressed) && m1[c].Is(MouseOver) == m0[c].Is(MouseOver)
  {
    UnflaggedOthers(m0, m1, MousePressed, c, MouseOver);
    assert c in may;
    if c in v0.on {
      ClaimedSpec(v0, may, reach, c, MousePressedSlot, false);
    }
    assert c !in FlagSet(m1, MousePressed);
  }

  /** setMouseOver(false) on c: c is no longer over and keeps its
      mouse-pressed flag. */
  method Unhover(p: ComponentPanel, c: Id)
    requires p.Valid() && c in p.scene.nodes
    modifies p.scene`nodes, p.scene`log, p.state, p`cursor
    ensures p.Valid() && c in p.scene.nodes
    ensures !p.scene.nodes[c].Is(MouseOver) && p.scene.nodes[c].Is(MousePressed) == old(p.scene.nodes[c].Is(MousePressed))
  {
    ghost var m1 := p.scene.nodes;
    ghost var v1 := HoverView(p);
    ghost var own, reach := OwnCursors(p.scene.nodes), ReachSet(p.scene.nodes, p.scene.rank);
    SetMouseOver(p, c, false);
    assert FlagSet(p.scene.nodes, MouseOver) == HoverView(p).on;
    UnhoveredStore(m1, p.scene.nodes, v1, own, reach, c);
  }

  /** The store after setMouseOver(false) on c: c is not over and keeps its
      mouse-pressed flag. */
  lemma UnhoveredStore(m0: Store, m1: Store, v0: Hover, own: map<Id, Option<Ref>>, reach: set<Id>, c: Id)
    requires c in m0 && Hoverless(m1) == Hoverless(m0)
    requires FlagSet(m1, MouseOver) == Hovered(v0, own, reach, c, false).on
    ensures c in m1 && !m1[c].Is(MouseOver) && m1[c].Is(MousePressed) == m0[c].Is(MousePressed)
  {
    HoveredFrame(v0, own, reach, c, false);
    HoverlessOthers(m0, m1, c, MousePressed);
    assert c !in FlagSet(m1, MouseOver);
  }

  /** The ComponentStateMouseHandler every DefaultComponent registers on
      itself, on an event of kind k at (x, y): mouseEntered and mouseExited
      set and clear mouseOver, mousePressed sets mousePressed, mouseReleased
      is MouseReleased, and mouseClicked sets focused; the motion and wheel
      kinds do not reach a MouseListener. */
  method StateHandler(p: ComponentPanel, c: Id, k: MouseKind, x: int, y: int)
    requires p.Valid() && c in p.scene.nodes
    modifies p.scene`nodes, p.scene`log, p.state, p`cursor
    ensures p.Valid() && c in p.scene.nodes
    ensures k == Entered || k == Exited ==>
      HoverView(p) == Hovered(old(HoverView(p)), OwnCursors(old(p.scene.nodes)), ReachSet(old(p.scene.nodes), p.scene.rank), c, k == Entered)
    ensures k == Pressed ==>
      Components.View(p.scene, p.state, MousePressedSlot)
        == Claimed(old(Components.View(p.scene, p.state, MousePressedSlot)), MaySet(old(p.scene.nodes), MousePressedSlot),
                   ReachSet(old(p.scene.nodes), p.scene.rank), c, MousePressedSlot, true)
    ensures k == Released ==>
      !p.scene.nodes[c].Is(MousePressed)
      && p.scene.nodes[c].Is(MouseOver) == (old(p.scene.nodes[c].Is(MouseOver)) && ContainsPoint(old(p.scene.nodes[c]), p.scene.geo[c], x, y))
    ensures k == Clicked ==>
      Components.View(p.scene, p.state, FocusedSlot)
        == Claimed(old(Components.View(p.scene, p.state, FocusedSlot)), MaySet(old(p.scene.nodes), FocusedSlot),
                   ReachSet(old(p.scene.nodes), p.scene.rank), c, FocusedSlot, true)
    ensures k in {Moved, Dragged, WheelMoved} ==> unchanged(p.scene) && unchanged(p.state) && unchanged(p)
  {
    match k {
      case Entered => SetMouseOver(p, c, true);
      case Exited => SetMouseOver(p, c, false);
      case Pressed => SetMousePressed(p, c, true);
      case Released => MouseReleased(p, c, x, y);
      case Clicked => SetFocused(p, c, true);
      case _ =>
    }
  }
}
