/**
 * The setters that change the fields of one component: the boolean
 * properties of the whole hierarchy (AbstractComponent,
 * AbstractResizableComponent, AbstractConnectedComponent,
 * AbstractContainerComponent, AbstractDraggableComponent,
 * AbstractAdjustableComponent, AbstractConnection), the reference-valued
 * properties, padding and border, the connection stroke, the drag shadow and
 * the active handle, and the listener lists.
 */
module Components {
  import opened Outcomes
  import opened Seqs
  import opened Geometry
  import opened Spacers
  import opened Nodes
  import opened Graph
  import opened Walks
  import opened Panels
  import opened Validation
  import opened Connections
  import opened Structure

  // ---------------------------------------------------------------------------
  // Rewriting the attributes of one component.

  /** The store with c's attributes replaced by a. */
  function Restyled(m: Store, c: Id, a: Attrs): (r: Store)
    requires c in m
    ensures r.Keys == m.Keys && r[c].kind == m[c].kind && r[c].w == m[c].w && r[c].a == a
    ensures forall d | d in m && d != c :: r[d] == m[d]
  {
    m[c := m[c].(a := a)]
  }

  /** New attributes that keep the handle list and the drag shadow keep the
      scene valid, and change neither its links nor its classes. */
  lemma RestyleKeeps(m: Store, geo: Geos, rank: map<Id, nat>, next: Id, valid: set<Id>, c: Id, a: Attrs)
    requires SceneOk(m, geo, rank, next, valid) && c in m
    requires a.handles == m[c].a.handles && ShadowOk(m, a.shadow)
    ensures SceneOk(Restyled(m, c, a), geo, rank, next, valid)
    ensures ShapeOf(Restyled(m, c, a)) == ShapeOf(m) && KindsKept(m, Restyled(m, c, a))
  {
    var r := Restyled(m, c, a);
    ShapeOfUpdate(m, c, m[c].(a := a));
    forall d, h | d in r && h in r[d].a.handles ensures h in r && r[h].kind.Handle? {
      assert h in m[d].a.handles;
    }
    forall d | d in r ensures ShadowOk(r, r[d].a.shadow) {
      if d != c { assert r[d].a.shadow == m[d].a.shadow; }
    }
  }

  /** The flag set with f made b. */
  function Toggled(on: set<Flag>, f: Flag, b: bool): (r: set<Flag>)
    ensures (f in r) == b && forall g | g != f :: g in r <==> g in on
  {
    if b then on + {f} else on - {f}
  }

  /** The store with flag f of c made b. */
  function WithFlag(m: Store, c: Id, f: Flag, b: bool): (r: Store)
    requires c in m
    ensures r.Keys == m.Keys && r[c].Is(f) == b
    ensures forall g | g != f :: r[c].Is(g) == m[c].Is(g)
  {
    Restyled(m, c, m[c].a.(on := Toggled(m[c].a.on, f, b)))
  }

  /** The write every boolean setter of the hierarchy makes: when the field
      already holds b nothing happens; otherwise the field takes b and the
      one property change fires. */
  method PutFlag(s: Scene, c: Id, f: Flag, b: bool)
    requires s.Valid() && c in s.nodes
    modifies s`nodes, s`log
    ensures s.Valid() && ShapeOf(s.nodes) == ShapeOf(old(s.nodes)) && KindsKept(old(s.nodes), s.nodes)
    ensures old(s.nodes[c].Is(f)) == b ==> s.nodes == old(s.nodes) && s.log == old(s.log)
    ensures old(s.nodes[c].Is(f)) != b ==>
      s.nodes == WithFlag(old(s.nodes), c, f, b) && s.log == old(s.log) + [Changed(c, FlagProp(f))]
  {
    if s.nodes[c].Is(f) == b {
      return;
    }
    RestyleKeeps(s.nodes, s.geo, s.rank, s.next, s.valid, c, s.nodes[c].a.(on := Toggled(s.nodes[c].a.on, f, b)));
    s.nodes, s.log := WithFlag(s.nodes, c, f, b), s.log + [Changed(c, FlagProp(f))];
  }

  /** The flags whose setters repaint the component after a change. */
  predicate Repainting(f: Flag) {
    f in {Virtual, Enabled, Visible, Opaque, ShowHandles}
  }

  /** The flags with a setter that does no more than PutFlag and, for a
      repainting flag, repaint(). setFocused, setMouseOver, setMousePressed,
      setDraggable, setMouseDragging and setRealTimeDraggingEnabled have
      setters of their own. */
  predicate PlainSetter(f: Flag) {
    f !in {Focused, MouseOver, MousePressed, DragEnabled, Dragging, RealTime}
  }

  /** setVirtual, setEnabled, setVisible, setOpaque, setFocusable,
      set*NotificationEnabled, setMovable, setResizable,
      setContainerLayoutEnabled, setShowHandles and setDirected: an equal
      value does nothing; otherwise the field changes, one property change
      fires and, for a repainting flag, the component repaints its preferred
      bounds. setFocusable tests the focusable field before writing it, so
      clearing focusable never clears focused. */
  method SetFlag(s: Scene, c: Id, f: Flag, b: bool)
    requires s.Valid() && c in s.nodes && HasFlag(s.nodes[c].kind, f) && PlainSetter(f)
    modifies s`nodes, s`log
    ensures s.Valid() && ShapeOf(s.nodes) == ShapeOf(old(s.nodes)) && KindsKept(old(s.nodes), s.nodes)
    ensures s.nodes[c].Is(f) == b
    ensures forall g | g != f :: s.nodes[c].Is(g) == old(s.nodes[c].Is(g))
    ensures old(s.nodes[c].Is(f)) == b ==> s.nodes == old(s.nodes) && s.log == old(s.log)
    ensures old(s.nodes[c].Is(f)) != b ==>
      s.nodes == WithFlag(old(s.nodes), c, f, b)
      && s.log == old(s.log) + [Changed(c, FlagProp(f))]
                 + (if Repainting(f) then SelfRepaint(s.nodes, s.geo, s.rank, c) else [])
  {
    var was := s.nodes[c].Is(f);
    PutFlag(s, c, f, b);
    if was != b && Repainting(f) {
      Repaint(s, c, PreferredBounds(s.nodes[c], GeoOf(s.geo, c)));
    }
  }

  /** AbstractComponent.setFocused: focusing a component that is not
      focusable throws; unfocusing one does nothing; otherwise it is a
      boolean setter. */
  method PutFocused(s: Scene, c: Id, b: bool) returns (o: Outcome)
    requires s.Valid() && c in s.nodes
    modifies s`nodes, s`log
    ensures s.Valid() && ShapeOf(s.nodes) == ShapeOf(old(s.nodes)) && KindsKept(old(s.nodes), s.nodes)
    ensures b && !old(s.nodes[c].Is(Focusable)) <==> o == Thrown(IllegalState)
    ensures o.Normal? <==> !o.Thrown?
    ensures !old(s.nodes[c].Is(Focusable)) || old(s.nodes[c].Is(Focused)) == b ==>
      s.nodes == old(s.nodes) && s.log == old(s.log)
    ensures old(s.nodes[c].Is(Focusable)) && old(s.nodes[c].Is(Focused)) != b ==>
      o == Normal && s.nodes == WithFlag(old(s.nodes), c, Focused, b) && s.log == old(s.log) + [Changed(c, FlagProp(Focused))]
  {
    if b && !s.nodes[c].Is(Focusable) {
      return Thrown(IllegalState);
    }
    if !s.nodes[c].Is(Focusable) || s.nodes[c].Is(Focused) == b {
      return Normal;
    }
    PutFlag(s, c, Focused, b);
    o := Normal;
  }

  // ---------------------------------------------------------------------------
  // Reference-valued properties.

  /** The store with c's reference property at made r (None is null). */
  function WithRef(m: Store, c: Id, at: Attr, r: Option<Ref>): (m': Store)
    requires c in m
    ensures m'.Keys == m.Keys && RefOf(m'[c], at) == r
    ensures forall b | b != at :: RefOf(m'[c], b) == RefOf(m[c], b)
  {
    var refs := m[c].a.refs;
    Restyled(m, c, m[c].a.(refs := if r.Some? then refs[at := r.value] else refs - {at}))
  }

  /** The reference property at of n; an absent key is null. */
  function RefOf(n: Node, at: Attr): Option<Ref> {
    if at in n.a.refs then Some(n.a.refs[at]) else None
  }

  /** setBackgroundPaint, setForegroundPaint, setComponentPainter,
      setComponentModel, setToolTip and setLayoutConstraints: the same object
      does nothing; otherwise the field changes and the property change
      fires, then the paints, the painter and the model repaint, and the
      layout constraints invalidate the component. */
  method SetAttr(s: Scene, c: Id, at: Attr, r: Option<Ref>, fuel: nat) returns (o: Outcome)
    requires s.Valid() && c in s.nodes
    modifies s`nodes, s`valid, s`log
    ensures s.Valid() && ShapeOf(s.nodes) == ShapeOf(old(s.nodes)) && KindsKept(old(s.nodes), s.nodes)
    ensures o.Thrown? ==> o == Thrown(StackOverflow) && at == Constraints
    ensures RefOf(old(s.nodes[c]), at) == r ==> o == Normal && unchanged(s)
    ensures RefOf(old(s.nodes[c]), at) != r ==>
      s.nodes == WithRef(old(s.nodes), c, at, r) && old(s.log) + [Changed(c, AttrProp(at))] <= s.log
      && (at == Constraints ==> Invalidation(s.nodes, old(s.valid), s.valid) && (o.Normal? ==> c !in s.valid))
      && (at in {BackgroundPaint, ForegroundPaint, Painter, Model} ==>
            s.valid == old(s.valid) && s.log == old(s.log) + [Changed(c, AttrProp(at))] + SelfRepaint(s.nodes, s.geo, s.rank, c))
      && (at == ToolTip ==> s.valid == old(s.valid) && s.log == old(s.log) + [Changed(c, AttrProp(at))])
  {
    if RefOf(s.nodes[c], at) == r {
      return Normal;
    }
    PutRef(s, c, at, r);
    if at == Constraints {
      o := Invalidate(s, c, fuel);
    } else {
      if at != ToolTip {
        Repaint(s, c, PreferredBounds(s.nodes[c], GeoOf(s.geo, c)));
      }
      o := Normal;
    }
  }

  /** The store and log step of SetAttr: the reference changes and the
      property change is noted. */
  method PutRef(s: Scene, c: Id, at: Attr, r: Option<Ref>)
    requires s.Valid() && c in s.nodes
    modifies s`nodes, s`log
    ensures s.Valid() && ShapeOf(s.nodes) == ShapeOf(old(s.nodes)) && KindsKept(old(s.nodes), s.nodes)
    ensures s.nodes == WithRef(old(s.nodes), c, at, r) && s.log == old(s.log) + [Changed(c, AttrProp(at))]
  {
    var refs := s.nodes[c].a.refs;
    RestyleKeeps(s.nodes, s.geo, s.rank, s.next, s.valid, c, s.nodes[c].a.(refs := if r.Some? then refs[at := r.value] else refs - {at}));
    s.nodes, s.log := WithRef(s.nodes, c, at, r), s.log + [Changed(c, AttrProp(at))];
  }

  /** setComponentBorder: the same border does nothing; otherwise the border
      changes, the property change fires and the component repaints. */
  method SetBorder(s: Scene, c: Id, b: Option<Border>)
    requires s.Valid() && c in s.nodes
    modifies s`nodes, s`log
    ensures s.Valid() && ShapeOf(s.nodes) == ShapeOf(old(s.nodes)) && KindsKept(old(s.nodes), s.nodes)
    ensures old(s.nodes[c].a.border) == b ==> unchanged(s)
    ensures old(s.nodes[c].a.border) != b ==>
      s.nodes == Restyled(old(s.nodes), c, old(s.nodes[c].a).(border := b))
      && s.log == old(s.log) + [Changed(c, BorderProp)] + SelfRepaint(s.nodes, s.geo, s.rank, c)
  {
    if s.nodes[c].a.border == b {
      return;
    }
    RestyleKeeps(s.nodes, s.geo, s.rank, s.next, s.valid, c, s.nodes[c].a.(border := b));
    s.nodes, s.log := Restyled(s.nodes, c, s.nodes[c].a.(border := b)), s.log + [Changed(c, BorderProp)];
    Repaint(s, c, PreferredBounds(s.nodes[c], GeoOf(s.geo, c)));
  }

  /** setPadding(spacer): the old value it compares against is a new copy,
      never the argument, so every call copies the four margins in (a null
      argument throws before any is written), fires the property change and
      repaints. */
  method SetPadding(s: Scene, c: Id, sp: Spacer?) returns (o: Outcome)
    requires s.Valid() && c in s.nodes && (sp != null ==> sp.Valid())
    modifies s`nodes, s`log
    ensures s.Valid() && ShapeOf(s.nodes) == ShapeOf(old(s.nodes)) && KindsKept(old(s.nodes), s.nodes)
    ensures sp == null ==> o == Thrown(NullPointer) && unchanged(s)
    ensures sp != null ==>
      o == Normal && s.nodes == Restyled(old(s.nodes), c, old(s.nodes[c].a).(padding := sp.Value()))
      && s.log == old(s.log) + [Changed(c, PaddingProp)] + SelfRepaint(s.nodes, s.geo, s.rank, c)
  {
    if sp == null {
      return Thrown(NullPointer);
    }
    var v := sp.Value();
    RestyleKeeps(s.nodes, s.geo, s.rank, s.next, s.valid, c, s.nodes[c].a.(padding := v));
    s.nodes, s.log := Restyled(s.nodes, c, s.nodes[c].a.(padding := v)), s.log + [Changed(c, PaddingProp)];
    Repaint(s, c, PreferredBounds(s.nodes[c], GeoOf(s.geo, c)));
    o := Normal;
  }

  /** getPadding(): a new spacer holding the margins, so that no write to the
      result reaches the component. */
  method GetPadding(s: Scene, c: Id) returns (sp: Spacer)
    requires c in s.nodes && NonNegative(s.nodes[c].a.padding)
    ensures fresh(sp) && sp.Valid() && sp.Value() == s.nodes[c].a.padding
  {
    var v := s.nodes[c].a.padding;
    var r := NewSpacer(v.top, v.bottom, v.left, v.right);
    sp := r.value;
  }

  // ---------------------------------------------------------------------------
  // AbstractConnection.

  /** setConnectionStroke(width, stroke): a negative width throws; the stroke
      already in use does nothing, whatever the width; otherwise the width
      and the stroke change and the property change fires. */
  method SetStrokeWidth(s: Scene, c: Id, w: int, st: Option<Stroke>) returns (o: Outcome)
    requires s.Valid() && c in s.nodes && s.nodes[c].kind.Connection?
    modifies s`nodes, s`log
    ensures s.Valid() && ShapeOf(s.nodes) == ShapeOf(old(s.nodes)) && KindsKept(old(s.nodes), s.nodes)
    ensures w < 0 ==> o == Thrown(IllegalArgument)
    ensures w >= 0 ==> o == Normal
    ensures o.Thrown? || old(s.nodes[c].a.stroke) == st ==> unchanged(s)
    ensures w >= 0 && old(s.nodes[c].a.stroke) != st ==>
      o == Normal && s.nodes == Restyled(old(s.nodes), c, old(s.nodes[c].a).(width := w, stroke := st))
      && s.log == old(s.log) + [Changed(c, StrokeProp)]
  {
    if w < 0 {
      return Thrown(IllegalArgument);
    }
    o := Normal;
    if s.nodes[c].a.stroke == st {
      return;
    }
    RestyleKeeps(s.nodes, s.geo, s.rank, s.next, s.valid, c, s.nodes[c].a.(width := w, stroke := st));
    s.nodes, s.log := Restyled(s.nodes, c, s.nodes[c].a.(width := w, stroke := st)), s.log + [Changed(c, StrokeProp)];
  }

  /** setConnectionStroke(stroke): a BasicStroke passes its own line width;
      any other stroke, and null, throws. */
  method SetStroke(s: Scene, c: Id, st: Option<Stroke>) returns (o: Outcome)
    requires s.Valid() && c in s.nodes && s.nodes[c].kind.Connection?
    modifies s`nodes, s`log
    ensures s.Valid() && ShapeOf(s.nodes) == ShapeOf(old(s.nodes)) && KindsKept(old(s.nodes), s.nodes)
    ensures !(st.Some? && st.value.BasicStroke?) ==> o == Thrown(IllegalArgument) && unchanged(s)
    ensures st.Some? && st.value.BasicStroke? && st.value.lineWidth < 0 ==> o == Thrown(IllegalArgument) && unchanged(s)
    ensures st.Some? && st.value.BasicStroke? && st.value.lineWidth >= 0 ==>
      o == Normal && s.nodes[c].a.stroke == st
      && (old(s.nodes[c].a.stroke) != st ==> s.nodes[c].a.width == st.value.lineWidth)
  {
    if !(st.Some? && st.value.BasicStroke?) {
      return Thrown(IllegalArgument);
    }
    o := SetStrokeWidth(s, c, st.value.lineWidth, st);
  }

  // ---------------------------------------------------------------------------
  // AbstractDraggableComponent and AbstractAdjustableComponent.

  /** setMouseDragging: starting a drag on a component that is not draggable
      throws; otherwise a boolean setter. */
  method SetMouseDragging(s: Scene, c: Id, b: bool) returns (o: Outcome)
    requires s.Valid() && c in s.nodes && IsDraggable(s.nodes[c].kind)
    modifies s`nodes, s`log
    ensures s.Valid() && ShapeOf(s.nodes) == ShapeOf(old(s.nodes)) && KindsKept(old(s.nodes), s.nodes)
    ensures b && !old(s.nodes[c].Is(DragEnabled)) <==> o == Thrown(IllegalState)
    ensures o.Thrown? ==> o == Thrown(IllegalState)
    ensures o.Thrown? || old(s.nodes[c].Is(Dragging)) == b ==> unchanged(s)
    ensures o.Normal? && old(s.nodes[c].Is(Dragging)) != b ==>
      s.nodes == WithFlag(old(s.nodes), c, Dragging, b) && s.log == old(s.log) + [Changed(c, FlagProp(Dragging))]
  {
    if b && !s.nodes[c].Is(DragEnabled) {
      return Thrown(IllegalState);
    }
    PutFlag(s, c, Dragging, b);
    o := Normal;
  }

  /** The flags setDraggable(b) leaves when it changes the draggable field:
      draggable becomes b, and a drag in progress ends only when draggable
      was off before. */
  function DraggableFlags(on: set<Flag>, b: bool): (r: set<Flag>)
    requires (DragEnabled in on) != b
    ensures (DragEnabled in r) == b
    ensures (Dragging in r) == (Dragging in on && !(b && DragEnabled !in on))
    ensures forall g | g != DragEnabled && g != Dragging :: g in r <==> g in on
  {
    var stop := DragEnabled !in on && Dragging in on;
    Toggled(if stop then Toggled(on, Dragging, false) else on, DragEnabled, b)
  }

  /** setDraggable: a boolean setter that first clears mouseDragging when
      the draggable field (read before it is written) is false and a drag is
      in progress. So, as written, turning draggable off leaves a drag in
      progress, and turning it back on ends one. */
  method SetDraggable(s: Scene, c: Id, b: bool)
    requires s.Valid() && c in s.nodes && IsDraggable(s.nodes[c].kind)
    modifies s`nodes, s`log
    ensures s.Valid() && ShapeOf(s.nodes) == ShapeOf(old(s.nodes)) && KindsKept(old(s.nodes), s.nodes)
    ensures old(s.nodes[c].Is(DragEnabled)) == b ==> unchanged(s)
    ensures old(s.nodes[c].Is(DragEnabled)) != b ==>
      s.nodes == Restyled(old(s.nodes), c, old(s.nodes[c].a).(on := DraggableFlags(old(s.nodes[c].a.on), b)))
      && s.log == old(s.log) + (if b && old(s.nodes[c].Is(Dragging)) then [Changed(c, FlagProp(Dragging))] else [])
                 + [Changed(c, FlagProp(DragEnabled))]
  {
    if s.nodes[c].Is(DragEnabled) == b {
      return;
    }
    var a := s.nodes[c].a.(on := DraggableFlags(s.nodes[c].a.on, b));
    RestyleKeeps(s.nodes, s.geo, s.rank, s.next, s.valid, c, a);
    s.nodes, s.log := Restyled(s.nodes, c, a),
      s.log + (if b && s.nodes[c].Is(Dragging) then [Changed(c, FlagProp(Dragging))] else []) + [Changed(c, FlagProp(DragEnabled))];
  }

  /** setRealTimeDraggingEnabled: throws whenever a drag is in progress,
      even for an equal value; otherwise a boolean setter. */
  method SetRealTimeDragging(s: Scene, c: Id, b: bool) returns (o: Outcome)
    requires s.Valid() && c in s.nodes && IsDraggable(s.nodes[c].kind)
    modifies s`nodes, s`log
    ensures s.Valid() && ShapeOf(s.nodes) == ShapeOf(old(s.nodes)) && KindsKept(old(s.nodes), s.nodes)
    ensures old(s.nodes[c].Is(Dragging)) <==> o == Thrown(IllegalState)
    ensures o.Thrown? || old(s.nodes[c].Is(RealTime)) == b ==> unchanged(s)
    ensures o.Normal? && old(s.nodes[c].Is(RealTime)) != b ==>
      s.nodes == WithFlag(old(s.nodes), c, RealTime, b) && s.log == old(s.log) + [Changed(c, FlagProp(RealTime))]
  {
    if s.nodes[c].Is(Dragging) {
      return Thrown(IllegalState);
    }
    PutFlag(s, c, RealTime, b);
    o := Normal;
  }

  /** setDragShadowComponent: the same shadow does nothing; otherwise the
      shadow is replaced and the property change fires. */
  method SetDragShadow(s: Scene, c: Id, sh: Option<Id>)
    requires s.Valid() && c in s.nodes && IsDraggable(s.nodes[c].kind)
    requires sh.Some? ==> sh.value in s.nodes && IsResizable(s.nodes[sh.value].kind)
    modifies s`nodes, s`log
    ensures s.Valid() && ShapeOf(s.nodes) == ShapeOf(old(s.nodes)) && KindsKept(old(s.nodes), s.nodes)
    ensures old(s.nodes[c].a.shadow) == sh ==> unchanged(s)
    ensures old(s.nodes[c].a.shadow) != sh ==>
      s.nodes == Restyled(old(s.nodes), c, old(s.nodes[c].a).(shadow := sh)) && s.log == old(s.log) + [Changed(c, ShadowProp)]
  {
    if s.nodes[c].a.shadow == sh {
      return;
    }
    RestyleKeeps(s.nodes, s.geo, s.rank, s.next, s.valid, c, s.nodes[c].a.(shadow := sh));
    s.nodes, s.log := Restyled(s.nodes, c, s.nodes[c].a.(shadow := sh)), s.log + [Changed(c, ShadowProp)];
  }

  /** setActiveHandle(xOffset, yOffset, handle): the same handle does
      nothing; otherwise the handle is stored and the property change fires.
      The two offsets are not stored anywhere. */
  method SetActiveHandle(s: Scene, c: Id, xOffset: int, yOffset: int, h: Option<Id>)
    requires s.Valid() && c in s.nodes && s.nodes[c].kind.Adjustable?
    modifies s`nodes, s`log
    ensures s.Valid() && ShapeOf(s.nodes) == ShapeOf(old(s.nodes)) && KindsKept(old(s.nodes), s.nodes)
    ensures old(s.nodes[c].a.activeHandle) == h ==> unchanged(s)
    ensures old(s.nodes[c].a.activeHandle) != h ==>
      s.nodes == Restyled(old(s.nodes), c, old(s.nodes[c].a).(activeHandle := h)) && s.log == old(s.log) + [Changed(c, ActiveHandleProp)]
  {
    if s.nodes[c].a.activeHandle == h {
      return;
    }
    RestyleKeeps(s.nodes, s.geo, s.rank, s.next, s.valid, c, s.nodes[c].a.(activeHandle := h));
    s.nodes, s.log := Restyled(s.nodes, c, s.nodes[c].a.(activeHandle := h)), s.log + [Changed(c, ActiveHandleProp)];
  }

  // ---------------------------------------------------------------------------
  // Listener lists.

  /** The lists an object of kind k has: the connected component listeners
      only on connected components, the container listeners only on
      containers. */
  predicate HasList(k: Kind, lk: ListKind) {
    match lk
    case ConnectedList => IsConnectedKind(k)
    case ContainerList => IsContainer(k)
    case _ => true
  }

  /** add*Listener(index, l) on the list ls: a null or already listed
      listener changes nothing; otherwise ArrayList.add(index, l), which
      throws for an index outside 0..size. */
  function ListenerAdded(ls: seq<Listener>, i: int, l: Option<Listener>): (r: Result<seq<Listener>>)
    ensures l.None? || l.value in ls ==> r == Ok(ls)
    ensures l.Some? && l.value !in ls && !(0 <= i <= |ls|) ==> r == Err(IndexOutOfBounds)
    ensures l.Some? && l.value !in ls && 0 <= i <= |ls| ==>
      r.Ok? && |r.value| == |ls| + 1 && r.value[i] == l.value && r.value[..i] == ls[..i] && r.value[i + 1..] == ls[i..]
    ensures r.Ok? ==> (forall x :: x in r.value <==> x in ls || Some(x) == l)
    ensures r.Ok? && NoDup(ls) ==> NoDup(r.value)
  {
    if l.None? || l.value in ls then Ok(ls)
    else if !(0 <= i <= |ls|) then Err(IndexOutOfBounds)
    else
      var r := InsertAt(ls, i, l.value);
      InsertAtNoDupAlways(ls, i, l.value);
      assert r[i + 1..] == ls[i..];
      assert forall x :: x in r <==> x in ls || x == l.value by {
        forall x ensures x in r <==> x in ls || x == l.value { InsertAtMembers(ls, i, l.value, x); }
      }
      Ok(r)
  }

  lemma InsertAtNoDupAlways(s: seq<Listener>, i: nat, x: Listener)
    requires i <= |s| && x !in s
    ensures NoDup(s) ==> NoDup(InsertAt(s, i, x))
  {
    if NoDup(s) { InsertAtNoDup(s, i, x); }
  }

  /** The store with c's list lk replaced by ls. */
  function WithList(m: Store, c: Id, lk: ListKind, ls: seq<Listener>): (r: Store)
    requires c in m
    ensures r.Keys == m.Keys && r[c].List(lk) == ls
    ensures forall k | k != lk :: r[c].List(k) == m[c].List(k)
  {
    Restyled(m, c, m[c].a.(lists := m[c].a.lists[lk := ls]))
  }

  /** add*Listener(index, l). */
  method AddListener(s: Scene, c: Id, lk: ListKind, i: int, l: Option<Listener>) returns (o: Outcome)
    requires s.Valid() && c in s.nodes && HasList(s.nodes[c].kind, lk)
    modifies s`nodes
    ensures s.Valid() && ShapeOf(s.nodes) == ShapeOf(old(s.nodes)) && KindsKept(old(s.nodes), s.nodes)
    ensures ListenerAdded(old(s.nodes[c].List(lk)), i, l).Err? ==> o == Thrown(IndexOutOfBounds) && s.nodes == old(s.nodes)
    ensures ListenerAdded(old(s.nodes[c].List(lk)), i, l).Ok? ==>
      o == Normal && s.nodes == WithList(old(s.nodes), c, lk, ListenerAdded(old(s.nodes[c].List(lk)), i, l).value)
  {
    var r := ListenerAdded(s.nodes[c].List(lk), i, l);
    if r.Err? {
      return Thrown(r.exc);
    }
    RestyleKeeps(s.nodes, s.geo, s.rank, s.next, s.valid, c, s.nodes[c].a.(lists := s.nodes[c].a.lists[lk := r.value]));
    s.nodes := WithList(s.nodes, c, lk, r.value);
    o := Normal;
  }

  /** remove*Listener(index): ArrayList.remove(index), which throws for an
      index outside the list. */
  method RemoveListenerAt(s: Scene, c: Id, lk: ListKind, i: int) returns (o: Outcome)
    requires s.Valid() && c in s.nodes && HasList(s.nodes[c].kind, lk)
    modifies s`nodes
    ensures s.Valid() && ShapeOf(s.nodes) == ShapeOf(old(s.nodes)) && KindsKept(old(s.nodes), s.nodes)
    ensures !(0 <= i < old(|s.nodes[c].List(lk)|)) <==> o == Thrown(IndexOutOfBounds)
    ensures o.Thrown? ==> s.nodes == old(s.nodes)
    ensures o.Normal? ==> 0 <= i < old(|s.nodes[c].List(lk)|) && s.nodes == WithList(old(s.nodes), c, lk, RemoveAt(old(s.nodes[c].List(lk)), i))
  {
    var ls := s.nodes[c].List(lk);
    if !(0 <= i < |ls|) {
      return Thrown(IndexOutOfBounds);
    }
    RestyleKeeps(s.nodes, s.geo, s.rank, s.next, s.valid, c, s.nodes[c].a.(lists := s.nodes[c].a.lists[lk := RemoveAt(ls, i)]));
    s.nodes := WithList(s.nodes, c, lk, RemoveAt(ls, i));
    o := Normal;
  }

  /** remove*Listener(l): null or an unlisted listener changes nothing;
      otherwise the entry goes. On a duplicate-free list, l is then no
      longer listed and every other listener still is. */
  method RemoveListener(s: Scene, c: Id, lk: ListKind, l: Option<Listener>)
    requires s.Valid() && c in s.nodes && HasList(s.nodes[c].kind, lk)
    modifies s`nodes
    ensures s.Valid() && ShapeOf(s.nodes) == ShapeOf(old(s.nodes)) && KindsKept(old(s.nodes), s.nodes)
    ensures l.None? || l.value !in old(s.nodes[c].List(lk)) ==> s.nodes == old(s.nodes)
    ensures l.Some? && l.value in old(s.nodes[c].List(lk)) ==>
      s.nodes == WithList(old(s.nodes), c, lk, Remove(old(s.nodes[c].List(lk)), l.value))
    ensures NoDup(old(s.nodes[c].List(lk))) ==>
      NoDup(s.nodes[c].List(lk)) && forall x :: x in s.nodes[c].List(lk) <==> x in old(s.nodes[c].List(lk)) && Some(x) != l
  {
    var ls := s.nodes[c].List(lk);
    if NoDup(ls) {
      forall x ensures x in (if l.Some? then Remove(ls, l.value) else ls) <==> x in ls && Some(x) != l {
        if l.Some? { RemoveMembers(ls, l.value, x); }
      }
      if l.Some? { RemoveMembers(ls, l.value, l.value); }
    }
    if l.None? || l.value !in ls {
      return;
    }
    RestyleKeeps(s.nodes, s.geo, s.rank, s.next, s.valid, c, s.nodes[c].a.(lists := s.nodes[c].a.lists[lk := Remove(ls, l.value)]));
    s.nodes := WithList(s.nodes, c, lk, Remove(ls, l.value));
  }

  /** remove*Listeners(): the list is emptied. */
  method RemoveListeners(s: Scene, c: Id, lk: ListKind)
    requires s.Valid() && c in s.nodes && HasList(s.nodes[c].kind, lk)
    modifies s`nodes
    ensures s.Valid() && ShapeOf(s.nodes) == ShapeOf(old(s.nodes)) && KindsKept(old(s.nodes), s.nodes)
    ensures s.nodes == WithList(old(s.nodes), c, lk, []) && s.nodes[c].List(lk) == []
  {
    RestyleKeeps(s.nodes, s.geo, s.rank, s.next, s.valid, c, s.nodes[c].a.(lists := s.nodes[c].a.lists[lk := []]));
    s.nodes := WithList(s.nodes, c, lk, []);
  }

  /** Adding a listener and then removing it restores a list that did not
      hold it. */
  lemma {:induction false} AddThenRemove(ls: seq<Listener>, i: int, l: Listener)
    requires l !in ls && 0 <= i <= |ls|
    ensures ListenerAdded(ls, i, Some(l)).Ok? && Remove(ListenerAdded(ls, i, Some(l)).value, l) == ls
  {
    var r := ListenerAdded(ls, i, Some(l)).value;
    assert r[..i] == ls[..i] && r[i] == l;
    assert l !in r[..i];
    var k := IndexOf(r, l);
    assert k == i;
    assert RemoveAt(r, i) == r[..i] + r[i + 1..];
    assert r[..i] + r[i + 1..] == ls[..i] + ls[i..];
    assert ls[..i] + ls[i..] == ls;
  }

  // ---------------------------------------------------------------------------
  // DefaultComponent: the setters that keep the panel state in step.

  /** The components of m with flag f. */
  function FlagSet(m: Store, f: Flag): set<Id> {
    set d | d in m && m[d].Is(f)
  }

  /** m with flag f cleared on every component: two stores with the same
      Unflagged store differ in flag f alone. */
  function Unflagged(m: Store, f: Flag): (r: Store)
    ensures r.Keys == m.Keys
  {
    map d | d in m :: Cleared(m[d], f)
  }

  /** Component n with flag f cleared. */
  function Cleared(n: Node, f: Flag): (r: Node)
    ensures r.kind == n.kind && r.w == n.w && r.a.on == n.a.on - {f}
  {
    n.(a := n.a.(on := n.a.on - {f}))
  }

  /** m' differs from m in the mouse-over flag and the saved cursor alone. */
  predicate OverOnly(m: Store, m': Store) {
    m'.Keys == m.Keys
    && forall d | d in m ::
         m'[d] == m[d].(a := m[d].a.(on := Toggled(m[d].a.on, MouseOver, m'[d].Is(MouseOver)), oldCursor := m'[d].a.oldCursor))
  }

  /** Restyling keeps every component's reach to the panel. */
  lemma {:induction false} PanelOfRestyled(m: Store, m': Store, rank: map<Id, nat>, x: Id)
    requires Walkable(m, rank) && x in m && ShapeOf(m') == ShapeOf(m)
    requires forall d | d in m :: m'[d].a.panel == m[d].a.panel
    ensures Walkable(m', rank) && PanelOf(m', rank, x) == PanelOf(m, rank, x)
    decreases Above(rank, x)
  {
    assert ShapeOf(m)[x] == ShapeOf(m')[x];
    if m[x].w.parent.Some? && !m[x].a.panel {
      assert Steps(m, rank, x);
      PanelOfRestyled(m, m', rank, m[x].w.parent.value);
    }
  }

  /** The slot of the panel state each of these setters keeps, and its flag. */
  function SlotFlag(t: Slot): Flag {
    match t
    case FocusedSlot => Focused
    case MousedOverSlot => MouseOver
    case MousePressedSlot => MousePressed
  }

  /** setFocused only acts on a focusable component; setMousePressed always. */
  predicate MayHold(n: Node, t: Slot) {
    t == FocusedSlot ==> n.Is(Focusable)
  }

  /** The components of m that reach a panel. */
  ghost function ReachSet(m: Store, rank: map<Id, nat>): set<Id> {
    set d | d in m && Walkable(m, rank) && PanelOf(m, rank, d)
  }

  /** The components of m the setter of slot t acts on. */
  function MaySet(m: Store, t: Slot): set<Id> {
    set d | d in m && MayHold(m[d], t)
  }

  /** What setFocused and setMousePressed see of a panel for slot t: the
      components that have the slot's flag, the panel state's holders, the
      scene's notes and the slots whose change the state fired. */
  datatype Claim = Claim(on: set<Id>, hs: Holders, notes: seq<Note>, fired: seq<Slot>)

  /** DefaultComponent.setFocused (t = FocusedSlot) and setMousePressed
      (t = MousePressedSlot) on c, given the components the setter acts on
      (may) and those that reach a panel (reach): an equal value, or a
      component the setter does not act on, changes nothing. Otherwise the
      flag changes, which is noted, and when a panel is reachable the setter
      goes on as Settled says. */
  function Claimed(st: Claim, may: set<Id>, reach: set<Id>, c: Id, t: Slot, b: bool): (r: Claim)
    decreases if b then 1 else 0, st.on, 1
  {
    if c !in may || (c in st.on) == b then st
    else
      var st1 := st.(on := if b then st.on + {c} else st.on - {c},
                     notes := st.notes + [Changed(c, FlagProp(SlotFlag(t)))]);
      if c !in reach then st1 else Settled(st1, may, reach, c, t)
  }

  /** The rest of the setter once c's flag is written and a panel is
      reachable: the component the slot holds is unset through the same
      setter, and then the slot holds c when c still has the flag, else
      null; the state fires when the slot changes. */
  function Settled(st: Claim, may: set<Id>, reach: set<Id>, c: Id, t: Slot): (r: Claim)
    decreases 0, st.on, 2
  {
    var r2 := if st.hs.Get(t).None? then st else Claimed(st, may, reach, st.hs.Get(t).value, t, false);
    var h := if c in r2.on then Some(c) else None;
    r2.(hs := r2.hs.Set(t, h), fired := if r2.hs.Get(t) == h then r2.fired else r2.fired + [t])
  }

  /** The setter changes the flag of c and of the component the slot held
      and no other, leaves the other slots alone, and appends to the notes
      only changes of those two. */
  lemma {:induction false} ClaimedFrame(st: Claim, may: set<Id>, reach: set<Id>, c: Id, t: Slot, b: bool)
    ensures var r := Claimed(st, may, reach, c, t, b);
      (forall d | d != c && Some(d) != st.hs.Get(t) :: d in r.on <==> d in st.on)
      && (forall u | u != t :: r.hs.Get(u) == st.hs.Get(u))
      && (r.hs.Get(t) == st.hs.Get(t) || r.hs.Get(t) == None || r.hs.Get(t) == Some(c))
      && FlagChanges(st.notes, r.notes, SlotFlag(t), c, st.hs.Get(t))
    decreases if b then 1 else 0, st.on
  {
    if c !in may || (c in st.on) == b {
      return;
    }
    var st1 := st.(on := if b then st.on + {c} else st.on - {c},
                   notes := st.notes + [Changed(c, FlagProp(SlotFlag(t)))]);
    var h0 := st.hs.Get(t);
    assert FlagChanges(st.notes, st1.notes, SlotFlag(t), c, h0);
    if c !in reach {
      return;
    }
    var r2 := if h0.None? then st1 else Claimed(st1, may, reach, h0.value, t, false);
    if h0.Some? {
      ClaimedFrame(st1, may, reach, h0.value, t, false);
      FlagChangesTrans(st.notes, st1.notes, r2.notes, SlotFlag(t), c, h0);
    }
    assert Claimed(st, may, reach, c, t, b) == Settled(st1, may, reach, c, t);
  }

  /** ns' extends ns by changes of flag f of c or of h. */
  predicate FlagChanges(ns: seq<Note>, ns': seq<Note>, f: Flag, c: Id, h: Option<Id>) {
    |ns| <= |ns'| && ns'[..|ns|] == ns
    && forall i | |ns| <= i < |ns'| :: ns'[i] == Changed(c, FlagProp(f)) || (h.Some? && ns'[i] == Changed(h.value, FlagProp(f)))
  }

  /** Changes of c's flag followed by changes of h's are changes of the two. */
  lemma FlagChangesTrans(ns: seq<Note>, ns1: seq<Note>, ns2: seq<Note>, f: Flag, c: Id, h: Option<Id>)
    requires h.Some? && FlagChanges(ns, ns1, f, c, h) && FlagChanges(ns1, ns2, f, h.value, h)
    ensures FlagChanges(ns, ns2, f, c, h)
  {
    assert ns2[..|ns|] == ns2[..|ns1|][..|ns|];
  }

  /** What the setter promises when it acts: c's flag becomes b, unless the
      slot already named c, in which case c unsets itself; with a panel the
      slot then names c exactly when c has the flag, and the previous holder
      loses the flag; without a panel the holders stay as they were and the
      one note is c's change. */
  lemma {:induction false} ClaimedSpec(st: Claim, may: set<Id>, reach: set<Id>, c: Id, t: Slot, b: bool)
    requires c in may && (c in st.on) != b
    ensures var r := Claimed(st, may, reach, c, t, b);
      (c in r.on) == (b && !(c in reach && st.hs.Get(t) == Some(c)))
      && (c in reach ==> r.hs.Get(t) == if c in r.on then Some(c) else None)
      && (c !in reach ==> r.hs == st.hs && r.notes == st.notes + [Changed(c, FlagProp(SlotFlag(t)))])
      && (c in reach && st.hs.Get(t).Some? && st.hs.Get(t).value != c && st.hs.Get(t).value in may ==> st.hs.Get(t).value !in r.on)
    decreases if b then 1 else 0, st.on
  {
    var st1 := st.(on := if b then st.on + {c} else st.on - {c},
                   notes := st.notes + [Changed(c, FlagProp(SlotFlag(t)))]);
    if c in reach && st.hs.Get(t).Some? {
      var d := st.hs.Get(t).value;
      ClaimedFrame(st1, may, reach, d, t, false);
      if d in st1.on && d in may {
        ClaimedSpec(st1, may, reach, d, t, false);
      }
    }
  }

  /** The slot names every component that has the flag, may hold the slot
      and reaches the panel: at most one focused (or pressed) component. */
  predicate Single(on: set<Id>, may: set<Id>, reach: set<Id>, h: Option<Id>) {
    forall d | d in on && d in may && d in reach :: h == Some(d)
  }

  /** The setters keep a single holder in the panel. */
  lemma SingleKept(st: Claim, may: set<Id>, reach: set<Id>, c: Id, t: Slot, b: bool)
    requires Single(st.on, may, reach, st.hs.Get(t))
    ensures var r := Claimed(st, may, reach, c, t, b);
      Single(r.on, may, reach, r.hs.Get(t))
  {
    var r := Claimed(st, may, reach, c, t, b);
    ClaimedFrame(st, may, reach, c, t, b);
    if c in may && (c in st.on) != b {
      ClaimedSpec(st, may, reach, c, t, b);
      forall d | d in r.on && d in may && d in reach ensures r.hs.Get(t) == Some(d) {
        if d != c && Some(d) != st.hs.Get(t) {
          assert d in st.on;
        }
      }
    }
  }

  /** A flag write keeps which components reach the panel. */
  lemma FlagReach(m: Store, rank: map<Id, nat>, c: Id, f: Flag, b: bool)
    requires Walkable(m, rank) && c in m
    ensures Walkable(WithFlag(m, c, f, b), rank) && ReachSet(WithFlag(m, c, f, b), rank) == ReachSet(m, rank)
  {
    var m' := WithFlag(m, c, f, b);
    ShapeOfUpdate(m, c, m'[c]);
    forall d | d in m ensures PanelOf(m', rank, d) == PanelOf(m, rank, d) {
      PanelOfRestyled(m, m', rank, d);
    }
  }

  /** A write of the flag of slot t keeps which components its setter acts
      on and moves c in or out of the flag's set. */
  lemma FlagStep(m: Store, c: Id, t: Slot, b: bool)
    requires c in m && t != MousedOverSlot
    ensures var m' := WithFlag(m, c, SlotFlag(t), b);
      MaySet(m', t) == MaySet(m, t)
      && FlagSet(m', SlotFlag(t)) == (if b then FlagSet(m, SlotFlag(t)) + {c} else FlagSet(m, SlotFlag(t)) - {c})
  {
    var m' := WithFlag(m, c, SlotFlag(t), b);
    assert forall d | d in m :: MayHold(m'[d], t) == MayHold(m[d], t);
  }

  /** A write of flag f changes the store in flag f alone. */
  lemma WithFlagUnflagged(m: Store, c: Id, f: Flag, b: bool)
    requires c in m
    ensures Unflagged(WithFlag(m, c, f, b), f) == Unflagged(m, f)
  {
    var m' := WithFlag(m, c, f, b);
    ClearedToggled(m[c], f, b);
    assert Unflagged(m', f)[c] == Unflagged(m, f)[c];
  }

  lemma ClearedToggled(n: Node, f: Flag, b: bool)
    ensures Cleared(n.(a := n.a.(on := Toggled(n.a.on, f, b))), f) == Cleared(n, f)
  {
    assert Toggled(n.a.on, f, b) - {f} == n.a.on - {f};
  }

  /** What the setters of slot t see of a scene and its panel's state. */
  function View(s: Scene, st: PanelState, t: Slot): Claim
    reads s, st
  {
    Claim(FlagSet(s.nodes, SlotFlag(t)), st.Snapshot(), s.log, st.fired)
  }

  /** PutFlag on the flag of slot t: the view changes as it does at the
      start of Claimed, and the result says whether c reaches a panel. */
  method PutSlotFlag(s: Scene, st: PanelState, c: Id, t: Slot, b: bool) returns (inPanel: bool)
    requires s.Valid() && c in s.nodes && t != MousedOverSlot && s.nodes[c].Is(SlotFlag(t)) != b
    modifies s`nodes, s`log
    ensures s.Valid() && Unflagged(s.nodes, SlotFlag(t)) == Unflagged(old(s.nodes), SlotFlag(t))
    ensures View(s, st, t) == old(View(s, st, t)).(on := if b then old(View(s, st, t)).on + {c} else old(View(s, st, t)).on - {c},
                                                   notes := old(View(s, st, t)).notes + [Changed(c, FlagProp(SlotFlag(t)))])
    ensures MaySet(s.nodes, t) == MaySet(old(s.nodes), t) && ReachSet(s.nodes, s.rank) == ReachSet(old(s.nodes), s.rank)
    ensures inPanel == (c in ReachSet(old(s.nodes), s.rank))
  {
    FlagReach(s.nodes, s.rank, c, SlotFlag(t), b);
    FlagStep(s.nodes, c, t, b);
    WithFlagUnflagged(s.nodes, c, SlotFlag(t), b);
    PutFlag(s, c, SlotFlag(t), b);
    inPanel := PanelOf(s.nodes, s.rank, c);
  }

  /** Claimed on a component it acts on: the flag write, then Settled when
      the component reaches a panel. */
  lemma ClaimedStep(v: Claim, may: set<Id>, reach: set<Id>, c: Id, t: Slot, b: bool)
    requires c in may && (c in v.on) != b
    ensures var v1 := v.(on := if b then v.on + {c} else v.on - {c}, notes := v.notes + [Changed(c, FlagProp(SlotFlag(t)))]);
      Claimed(v, may, reach, c, t, b) == if c in reach then Settled(v1, may, reach, c, t) else v1
  {
  }

  /** The method form of Claimed: setFocused (t = FocusedSlot) or
      setMousePressed (t = MousePressedSlot) on component c of scene s,
      whose panel has state st; may and reach are the components the setter
      acts on and those that reach a panel, which the setters keep. The
      store changes in the slot's flag alone. */
  method ClaimSlot(s: Scene, st: PanelState, ghost may: set<Id>, ghost reach: set<Id>, c: Id, t: Slot, b: bool)
    requires s.Valid() && HoldersIn(st, s.nodes) && c in s.nodes && t != MousedOverSlot
    requires may == MaySet(s.nodes, t) && reach == ReachSet(s.nodes, s.rank)
    modifies s`nodes, s`log, st
    ensures s.Valid() && Unflagged(s.nodes, SlotFlag(t)) == Unflagged(old(s.nodes), SlotFlag(t))
    ensures View(s, st, t) == Claimed(old(View(s, st, t)), may, reach, c, t, b)
    decreases if b then 1 else 0, FlagSet(s.nodes, SlotFlag(t)), 1
  {
    if !MayHold(s.nodes[c], t) || s.nodes[c].Is(SlotFlag(t)) == b {
      return;
    }
    ActSlot(s, st, may, reach, c, t, b);
  }

  /** ClaimSlot on a component whose flag it changes. */
  method ActSlot(s: Scene, st: PanelState, ghost may: set<Id>, ghost reach: set<Id>, c: Id, t: Slot, b: bool)
    requires s.Valid() && HoldersIn(st, s.nodes) && c in s.nodes && t != MousedOverSlot
    requires may == MaySet(s.nodes, t) && reach == ReachSet(s.nodes, s.rank)
    requires MayHold(s.nodes[c], t) && s.nodes[c].Is(SlotFlag(t)) != b
    modifies s`nodes, s`log, st
    ensures s.Valid() && Unflagged(s.nodes, SlotFlag(t)) == Unflagged(old(s.nodes), SlotFlag(t))
    ensures View(s, st, t) == Claimed(old(View(s, st, t)), may, reach, c, t, b)
    decreases if b then 1 else 0, FlagSet(s.nodes, SlotFlag(t)), 0
  {
    var f := SlotFlag(t);
    ghost var v0 := View(s, st, t);
    ghost var v1 := v0.(on := if b then v0.on + {c} else v0.on - {c}, notes := v0.notes + [Changed(c, FlagProp(f))]);
    ClaimedStep(v0, may, reach, c, t, b);
    var inPanel := PutSlotFlag(s, st, c, t, b);
    assert View(s, st, t) == v1;
    if inPanel {
      SettleSlot(s, st, may, reach, c, t);
      assert View(s, st, t) == Settled(v1, may, reach, c, t);
    }
  }

  /** The method form of Settled: c's flag is written and c reaches the
      panel. */
  method SettleSlot(s: Scene, st: PanelState, ghost may: set<Id>, ghost reach: set<Id>, c: Id, t: Slot)
    requires s.Valid() && HoldersIn(st, s.nodes) && c in s.nodes && t != MousedOverSlot
    requires may == MaySet(s.nodes, t) && reach == ReachSet(s.nodes, s.rank)
    modifies s`nodes, s`log, st
    ensures s.Valid() && Unflagged(s.nodes, SlotFlag(t)) == Unflagged(old(s.nodes), SlotFlag(t))
    ensures View(s, st, t) == Settled(old(View(s, st, t)), may, reach, c, t)
    decreases 0, FlagSet(s.nodes, SlotFlag(t)), 2
  {
    var f := SlotFlag(t);
    ghost var v0 := View(s, st, t);
    var cur := st.Holder(t);
    ghost var v2 := if cur.None? then v0 else Claimed(v0, may, reach, cur.value, t, false);
    if cur.Some? {
      ClaimSlot(s, st, may, reach, cur.value, t, false);
    }
    assert View(s, st, t) == v2;
    var h := if s.nodes[c].Is(f) then Some(c) else None;
    st.SetHolder(t, h);
    assert View(s, st, t) == v2.(hs := v2.hs.Set(t, h), fired := if v2.hs.Get(t) == h then v2.fired else v2.fired + [t]);
  }


  /** Two stores with the same Unflagged store have the same components,
      kinds and wiring. */
  lemma UnflaggedKeeps(m: Store, m': Store, f: Flag)
    requires Unflagged(m', f) == Unflagged(m, f)
    ensures m'.Keys == m.Keys
    ensures forall d | d in m :: m'[d].kind == m[d].kind && m'[d].w == m[d].w
  {
    forall d | d in m
      ensures m'[d].kind == m[d].kind && m'[d].w == m[d].w
    {
      assert Unflagged(m', f)[d] == Unflagged(m, f)[d];
    }
  }

  /** Holders that keep every slot but t, and in t keep the old holder,
      hold nothing or hold a stored c, are all stored. */
  lemma HoldersInFrame(h: Holders, h': Holders, t: Slot, c: Id, m: Store, m': Store)
    requires h.In(m) && m'.Keys == m.Keys && c in m
    requires forall u | u != t :: h'.Get(u) == h.Get(u)
    requires h'.Get(t) == h.Get(t) || h'.Get(t) == None || h'.Get(t) == Some(c)
    ensures h'.In(m')
  {
    assert h'.focused == h'.Get(FocusedSlot) && h.focused == h.Get(FocusedSlot);
    assert h'.over == h'.Get(MousedOverSlot) && h.over == h.Get(MousedOverSlot);
    assert h'.pressed == h'.Get(MousePressedSlot) && h.pressed == h.Get(MousePressedSlot);
  }

  /** The panel's part of the invariant survives a setter of slot t on c:
      the store changes in the slot's flag alone and the holders as
      ClaimedFrame allows. */
  lemma PanelOkClaimed(roots: seq<Id>, fixed: set<Id>, m0: Store, m1: Store, v0: Claim,
                       may: set<Id>, reach: set<Id>, c: Id, t: Slot, b: bool)
    requires PanelOk(roots, fixed, m0, v0.hs) && c in m0
    requires Unflagged(m1, SlotFlag(t)) == Unflagged(m0, SlotFlag(t))
    ensures PanelOk(roots, fixed, m1, Claimed(v0, may, reach, c, t, b).hs)
  {
    ClaimedFrame(v0, may, reach, c, t, b);
    UnflaggedKeeps(m0, m1, SlotFlag(t));
    HoldersInFrame(v0.hs, Claimed(v0, may, reach, c, t, b).hs, t, c, m0, m1);
  }

  /** ClaimSlot on the scene and state of panel p: what Claimed says, on
      the components the setter acts on and those that reach the panel
      before the call, and p stays valid. */
  method SetSlot(p: ComponentPanel, c: Id, t: Slot, b: bool)
    requires p.Valid() && c in p.scene.nodes && t != MousedOverSlot
    modifies p.scene`nodes, p.scene`log, p.state
    ensures p.Valid() && Unflagged(p.scene.nodes, SlotFlag(t)) == Unflagged(old(p.scene.nodes), SlotFlag(t))
    ensures View(p.scene, p.state, t)
         == Claimed(old(View(p.scene, p.state, t)), MaySet(old(p.scene.nodes), t), ReachSet(old(p.scene.nodes), p.scene.rank), c, t, b)
  {
    var s, st := p.scene, p.state;
    ghost var m0 := s.nodes;
    ghost var v0 := View(s, st, t);
    ghost var may, reach := MaySet(s.nodes, t), ReachSet(s.nodes, s.rank);
    ClaimSlot(s, st, may, reach, c, t, b);
    PanelOkClaimed(p.roots, p.FixedRoots(), m0, s.nodes, v0, may, reach, c, t, b);
  }

  /** DefaultComponent.setFocused on c. */
  method SetFocused(p: ComponentPanel, c: Id, b: bool)
    requires p.Valid() && c in p.scene.nodes
    modifies p.scene`nodes, p.scene`log, p.state
    ensures p.Valid() && Unflagged(p.scene.nodes, SlotFlag(FocusedSlot)) == Unflagged(old(p.scene.nodes), SlotFlag(FocusedSlot))
    ensures View(p.scene, p.state, FocusedSlot)
         == Claimed(old(View(p.scene, p.state, FocusedSlot)), MaySet(old(p.scene.nodes), FocusedSlot),
                    ReachSet(old(p.scene.nodes), p.scene.rank), c, FocusedSlot, b)
  {
    SetSlot(p, c, FocusedSlot, b);
  }

  /** DefaultComponent.setMousePressed on c. */
  method SetMousePressed(p: ComponentPanel, c: Id, b: bool)
    requires p.Valid() && c in p.scene.nodes
    modifies p.scene`nodes, p.scene`log, p.state
    ensures p.Valid() && Unflagged(p.scene.nodes, SlotFlag(MousePressedSlot)) == Unflagged(old(p.scene.nodes), SlotFlag(MousePressedSlot))
    ensures View(p.scene, p.state, MousePressedSlot)
         == Claimed(old(View(p.scene, p.state, MousePressedSlot)), MaySet(old(p.scene.nodes), MousePressedSlot),
                    ReachSet(old(p.scene.nodes), p.scene.rank), c, MousePressedSlot, b)
  {
    SetSlot(p, c, MousePressedSlot, b);
  }

}
