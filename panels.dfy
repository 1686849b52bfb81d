/**
 * The ComponentPanel object, which owns the component store (every component
 * object of the scene, by id), its root list and its settings; the panel's
 * state object (AbstractComponentPanelState), the panel tools
 * (AbstractComponentPanelTool, DefaultComponentPanelTool), the Swing event
 * objects the toolkit mutates, and the record of observable notifications.
 */
module Panels {
  import opened Outcomes
  import opened Seqs
  import opened Geometry
  import opened Nodes
  import opened Graph
  import opened Walks

  // ---------------------------------------------------------------------------
  // Notifications.

  /** The property named by a component's firePropertyChangeEvent. */
  datatype Prop =
    | FlagProp(flag: Flag)
    | LocationProp | SizeProp | BoundsProp
    | ParentProp | PanelProp | LayoutProp
    | EndProp(end: End)
    | StrokeProp | ShadowProp | ActiveHandleProp
    | PaddingProp | BorderProp | CursorProp
    | AttrProp(attr: Attr)

  datatype Change = Added | Removed
  datatype Validity = Validated | Invalidated

  /** MouseEvent and MouseWheelEvent identifiers. */
  datatype MouseKind = Entered | Exited | Pressed | Released | Clicked | Moved | Dragged | WheelMoved
  /** KeyEvent identifiers. */
  datatype KeyKind = KeyPressed | KeyReleased | KeyTyped

  /** An event as a listener receives it. */
  datatype Event =
    | ValidationEv(source: Id, validity: Validity)
    | ConnectedEv(source: Id, change: Change, end: End, connection: Id)
    | ContainerEv(source: Id, change: Change, child: Id)
    | RootEv(change: Change, root: Id)
    | MouseEv(mouse: MouseKind, x: int, y: int)
    | KeyEv(key: KeyKind, code: int)

  /** What the outside world can observe of a run: property changes, events
      delivered to listeners, repaint requests that reach the panel and the
      panel's own revalidation. */
  datatype Note =
    | Changed(c: Id, prop: Prop)
    | Heard(l: Listener, ev: Event)
    | Painted(r: Rect)
    | PanelRevalidated
    | PanelChanged(panelProp: PanelProp)

  /** The properties of the panel itself whose changes it fires. */
  datatype PanelProp = StateProp | ActiveToolProp

  /** The notes of delivering ev to every listener of a list, in order. */
  function Deliveries(ls: seq<Listener>, ev: Event): (r: seq<Note>)
    ensures |r| == |ls| && forall i | 0 <= i < |ls| :: r[i] == Heard(ls[i], ev)
  {
    if |ls| == 0 then [] else Deliveries(ls[..|ls| - 1], ev) + [Heard(ls[|ls| - 1], ev)]
  }

  /** A MouseEvent, MouseWheelEvent or KeyEvent object: listeners consume it
      and containers translate its point while dispatching it. */
  class InputEvent {
    var mouse: Option<MouseKind>   // None for a key event
    var key: KeyKind
    var code: int                  // KeyEvent.getKeyCode()
    var x: int
    var y: int
    var consumed: bool

    constructor Mouse(kind: MouseKind, x0: int, y0: int)
      ensures mouse == Some(kind) && x == x0 && y == y0 && !consumed
    {
      mouse, key, code := Some(kind), KeyPressed, 0;
      x, y, consumed := x0, y0, false;
    }

    constructor Key(kind: KeyKind, keyCode: int)
      ensures mouse == None && key == kind && code == keyCode && !consumed && x == 0 && y == 0
    {
      mouse, key, code := None, kind, keyCode;
      x, y, consumed := 0, 0, false;
    }

    /** What a listener sees when it hears this event. */
    function Snapshot(): Event
      reads this`mouse, this`key, this`code, this`x, this`y
    {
      if mouse.Some? then MouseEv(mouse.value, x, y) else KeyEv(key, code)
    }

    /** translatePoint(dx, dy). */
    method Translate(dx: int, dy: int)
      modifies this`x, this`y
      ensures x == old(x) + dx && y == old(y) + dy
    {
      x, y := x + dx, y + dy;
    }

    method Consume()
      modifies this`consumed
      ensures consumed
    {
      consumed := true;
    }
  }

  // ---------------------------------------------------------------------------
  // AbstractComponentPanelState.

  datatype Slot = FocusedSlot | MousedOverSlot | MousePressedSlot

  /** The three holders of a panel state, as a value. */
  datatype Holders = Holders(focused: Option<Id>, over: Option<Id>, pressed: Option<Id>) {
    function Get(s: Slot): Option<Id> {
      match s
      case FocusedSlot => focused
      case MousedOverSlot => over
      case MousePressedSlot => pressed
    }

    function Set(s: Slot, c: Option<Id>): (h: Holders)
      ensures h.Get(s) == c && forall t | t != s :: h.Get(t) == Get(t)
    {
      match s
      case FocusedSlot => this.(focused := c)
      case MousedOverSlot => this.(over := c)
      case MousePressedSlot => this.(pressed := c)
    }

    /** Every holder is a key of m. */
    predicate In<V>(m: map<Id, V>) {
      (focused.Some? ==> focused.value in m) && (over.Some? ==> over.value in m) && (pressed.Some? ==> pressed.value in m)
    }
  }

  /** The three single-holder slots of the panel state. */
  class PanelState {
    var focused: Option<Id>
    var mousedOver: Option<Id>
    var mousePressed: Option<Id>
    /** The property changes it has fired. */
    var fired: seq<Slot>

    constructor ()
      ensures focused == None && mousedOver == None && mousePressed == None && fired == []
    {
      focused, mousedOver, mousePressed, fired := None, None, None, [];
    }

    function Holder(s: Slot): Option<Id>
      reads this
    {
      Snapshot().Get(s)
    }

    function Snapshot(): Holders
      reads this
    {
      Holders(focused, mousedOver, mousePressed)
    }

    /** setFocusedComponent, setMousedOverComponent and setMousePressedComponent:
        an identical value changes nothing; otherwise the slot takes the value
        and one change is fired; the other two slots never change. */
    method SetHolder(s: Slot, c: Option<Id>)
      modifies this
      ensures Holder(s) == c
      ensures forall t | t != s :: Holder(t) == old(Holder(t))
      ensures Snapshot() == old(Snapshot()).Set(s, c)
      ensures fired == if old(Holder(s)) == c then old(fired) else old(fired) + [s]
    {
      if Holder(s) == c {
        return;
      }
      match s {
        case FocusedSlot => focused := c;
        case MousedOverSlot => mousedOver := c;
        case MousePressedSlot => mousePressed := c;
      }
      fired := fired + [s];
    }
  }

  // ---------------------------------------------------------------------------
  // AbstractComponentPanelTool and DefaultComponentPanelTool.

  datatype ToolProp = EnabledProp | ActiveProp(active: bool)

  /** The keys the AbstractComponentPanelTool constructor fills. */
  const ID_KEY := "id"
  const NAME_KEY := "Name"
  const SMALL_ICON_KEY := "SmallIcon"
  const CURSOR_KEY := "cursor"
  const SHORT_DESCRIPTION_KEY := "ShortDescription"
  const LONG_DESCRIPTION_KEY := "LongDescription"

  /** A DefaultComponentPanelTool. The value map holds only non-null values:
      a key absent from it reads as null. */
  class Tool {
    var enabled: bool
    var active: bool
    var values: map<string, Ref>
    var oldCursor: Option<Ref>
    var fired: seq<ToolProp>

    /** The constructor past its null-id check: the six values are put in order. */
    constructor (id: Ref, name: Option<Ref>, icon: Option<Ref>, cursor: Option<Ref>,
                 shortDescription: Option<Ref>, longDescription: Option<Ref>)
      ensures enabled && !active && oldCursor == None && fired == []
      ensures GetValue(ID_KEY) == Some(id) && GetValue(NAME_KEY) == name && GetValue(SMALL_ICON_KEY) == icon
      ensures GetValue(CURSOR_KEY) == cursor && GetValue(SHORT_DESCRIPTION_KEY) == shortDescription
      ensures GetValue(LONG_DESCRIPTION_KEY) == longDescription
    {
      enabled, active, oldCursor, fired := true, false, None, [];
      var vs := map[ID_KEY := id];
      vs := Put(vs, NAME_KEY, name);
      vs := Put(vs, SMALL_ICON_KEY, icon);
      vs := Put(vs, CURSOR_KEY, cursor);
      vs := Put(vs, SHORT_DESCRIPTION_KEY, shortDescription);
      vs := Put(vs, LONG_DESCRIPTION_KEY, longDescription);
      values := vs;
    }

    /** getValue(key). */
    function GetValue(key: string): Option<Ref>
      reads this
    {
      if key in values then Some(values[key]) else None
    }

    /** putValue(key, value). */
    method PutValue(key: string, v: Option<Ref>)
      modifies this
      ensures GetValue(key) == v
      ensures forall k | k != key :: GetValue(k) == old(GetValue(k))
      ensures enabled == old(enabled) && active == old(active) && oldCursor == old(oldCursor) && fired == old(fired)
    {
      values := Put(values, key, v);
    }

    /** activate(panel) as DefaultComponentPanelTool defines it: a null panel
        is refused; a tool with a cursor value saves the panel's cursor and
        installs its own; then the tool becomes active and fires the change. */
    method Activate(p: ComponentPanel?) returns (o: Outcome)
      modifies this, (if p == null then {} else {p})`cursor
      ensures p == null ==> o == Thrown(IllegalArgument) && unchanged(this)
      ensures p != null ==>
        o == Normal && active && enabled == old(enabled) && values == old(values) && fired == old(fired) + [ActiveProp(true)]
      ensures p != null && GetValue(CURSOR_KEY).Some? ==>
        oldCursor == Some(old(p.GetCursor())) && p.cursor == GetValue(CURSOR_KEY)
      ensures p != null && GetValue(CURSOR_KEY).None? ==> oldCursor == old(oldCursor) && p.cursor == old(p.cursor)
    {
      if p == null {
        return Thrown(IllegalArgument);
      }
      var c := GetValue(CURSOR_KEY);
      if c.Some? {
        oldCursor := Some(p.GetCursor());
        p.cursor := c;
      }
      active := true;
      fired := fired + [ActiveProp(true)];
      o := Normal;
    }

    /** deactivate(panel) as DefaultComponentPanelTool defines it: a null
        panel is refused, and so is a panel whose active tool is another one,
        before the cursor is touched; otherwise a saved cursor is restored,
        the saved cursor is cleared, and the tool becomes inactive and fires
        the change. */
    method Deactivate(p: ComponentPanel?) returns (o: Outcome)
      modifies this, (if p == null then {} else {p})`cursor
      ensures p == null ==> o == Thrown(IllegalArgument) && unchanged(this)
      ensures p != null && p.activeTool != this ==> o == Thrown(IllegalState) && unchanged(this) && unchanged(p)
      ensures p != null && p.activeTool == this ==>
        o == Normal && !active && oldCursor == None && enabled == old(enabled) && values == old(values)
        && fired == old(fired) + [ActiveProp(false)]
        && p.cursor == if old(oldCursor).Some? then old(oldCursor) else old(p.cursor)
    {
      if p == null {
        return Thrown(IllegalArgument);
      }
      if p.activeTool != this {
        return Thrown(IllegalState);
      }
      if oldCursor.Some? {
        p.cursor := oldCursor;
      }
      oldCursor := None;
      active := false;
      fired := fired + [ActiveProp(false)];
      o := Normal;
    }

    /** setEnabled: idempotent, and one change is fired otherwise. */
    method SetEnabled(b: bool)
      modifies this
      ensures enabled == b && active == old(active) && values == old(values) && oldCursor == old(oldCursor)
      ensures fired == if old(enabled) == b then old(fired) else old(fired) + [EnabledProp]
    {
      if enabled == b {
        return;
      }
      enabled := b;
      fired := fired + [EnabledProp];
    }
  }

  /** HashMap.put, with a null value read back as absent. */
  function Put(m: map<string, Ref>, key: string, v: Option<Ref>): (r: map<string, Ref>)
    ensures (key in r) == v.Some? && (v.Some? ==> r[key] == v.value)
    ensures forall k | k != key :: (k in r <==> k in m) && (k in r ==> r[k] == m[k])
  {
    if v.Some? then m[key := v.value] else m - {key}
  }

  /** `new DefaultComponentPanelTool(id, ...)`: a null id is refused. */
  method NewTool(id: Option<Ref>, name: Option<Ref>, icon: Option<Ref>, cursor: Option<Ref>,
                 shortDescription: Option<Ref>, longDescription: Option<Ref>) returns (r: Result<Tool>)
    ensures id.None? <==> r == Err(IllegalArgument)
    ensures r.Ok? ==> (fresh(r.value) && r.value.GetValue(ID_KEY) == id && r.value.GetValue(CURSOR_KEY) == cursor
                       && r.value.enabled && !r.value.active)
  {
    if id.None? {
      return Err(IllegalArgument);
    }
    var t := new Tool(id.value, name, icon, cursor, shortDescription, longDescription);
    return Ok(t);
  }

  // ---------------------------------------------------------------------------
  // ComponentPanel.

  /** The host's view of the panel: JComponent.getVisibleRect() and the sizes
      getPreferredSize starts from. */
  datatype Host = Host(visible: Rect, ownW: int, ownH: int, parentSize: Option<(int, int)>)

  /** What validation and layout read of the panel: its root list and its
      visible rectangle (JComponent.getVisibleRect()). */
  datatype View = View(roots: seq<Id>, visible: Rect)

  const DEFAULT_GRID_SPACING := 16
  /** Cursor.DEFAULT_CURSOR, what getCursor() reports for a panel whose own
      cursor is null (the Swing parent's cursor is not part of this model). */
  const DEFAULT_CURSOR: Ref := 0

  /** The cursor a panel shows when its cursor field holds c. */
  function Shown(c: Option<Ref>): Ref {
    if c.Some? then c.value else DEFAULT_CURSOR
  }

  /** Every component object (the part of the Java heap the toolkit builds),
      and everything observable it has done. */
  class Scene {
    /** Every component object, by id. */
    var nodes: Store
    /** The geometry of every component object, by id. */
    var geo: Geos
    /** A height for every component, above all of its descendants. */
    ghost var rank: map<Id, nat>
    /** The first id no component has yet. */
    var next: Id
    /** The components whose DefaultComponent.valid flag is set. */
    var valid: set<Id>
    /** Every notification so far, in order. */
    var log: seq<Note>

    /** What the validation and geometry operations need of the store: a
        walkable graph, attribute references that exist, and geometry for
        every component. */
    ghost predicate Sound()
      reads this`nodes, this`geo, this`rank
    {
      Walkable(nodes, rank) && AttrRefsOk(nodes) && geo.Keys == nodes.Keys
    }

    /** The invariant between operations. */
    ghost predicate Valid()
      reads this`nodes, this`geo, this`rank, this`next, this`valid
    {
      SceneOk(nodes, geo, rank, next, valid)
    }

    /** The scene of a new panel: the five roots its constructor creates and
        adds, each of which takes the panel (which fires one property change,
        and repaints a rectangle that is still empty, so nothing is painted). */
    constructor Initial()
      ensures Valid() && FreshPanelScene(nodes, geo, valid, next, log)
    {
      var m, rk := PanelRoots();
      nodes, rank, next, valid := m, rk, 5, {};
      var g0 := FreshGeo(Root);
      geo := map[0 := g0, 1 := g0, 2 := g0, 3 := g0, 4 := g0];
      log := [Changed(0, PanelProp), Changed(1, PanelProp), Changed(2, PanelProp), Changed(3, PanelProp), Changed(4, PanelProp)];
    }

    /** `new DefaultComponent()` and the other constructors of kind k, for a
        component without a parent: the new object takes the next id; a
        draggable's constructor also creates its drag shadow first. */
    method Create(k: Kind) returns (c: Id)
      requires Valid()
      modifies this`nodes, this`geo, this`rank, this`next
      ensures Valid() && c !in old(nodes) && log == old(log) && valid == old(valid)
      ensures !IsDraggable(k) ==>
        c == old(next) && nodes == old(nodes)[c := Fresh(k, c, None)] && geo == old(geo)[c := FreshGeo(k)]
      ensures IsDraggable(k) ==> (c == old(next) + 1 && old(next) !in old(nodes)
                                  && nodes == old(nodes)[old(next) := FreshShadow(old(next))][c := Fresh(k, c, Some(old(next)))]
                                  && geo == old(geo)[old(next) := FreshGeo(Resizable)][c := FreshGeo(k)])
    {
      var shadow: Option<Id> := None;
      if IsDraggable(k) {
        var s := Insert(FreshShadow(next), FreshGeo(Resizable));
        shadow := Some(s);
      }
      c := Insert(Fresh(k, next, shadow), FreshGeo(k));
    }

    /** Storing a new, unlinked component object under the next id. */
    method Insert(n: Node, g: Geo) returns (c: Id)
      requires Valid() && n.w == Wiring(None, [], [], [], None, None)
      requires n.a.handles == [] && ShadowOk(nodes, n.a.shadow)
      modifies this`nodes, this`geo, this`rank, this`next
      ensures Valid() && c == old(next) && c !in old(nodes) && nodes == old(nodes)[c := n] && geo == old(geo)[c := g]
      ensures next == old(next) + 1 && log == old(log) && valid == old(valid)
    {
      c := next;
      InsertKeeps(nodes, geo, rank, valid, c, n, g);
      nodes, geo, rank, next := nodes[c := n], geo[c := g], rank[c := 0], next + 1;
    }
  }

  class ComponentPanel {
    /** The components and what they have done. */
    const scene: Scene
    /** rootComponentList. */
    var roots: seq<Id>
    var state: PanelState               // componentPanelState
    var activeTool: Tool?               // activeComponentPanelTool
    var cursor: Option<Ref>             // JComponent.getCursor()
    var snap: bool                      // snapToGridEnabled
    var hGridSpacing: int
    var vGridSpacing: int
    var rootNotify: bool                // rootComponentNotificationEnabled
    var rootListeners: seq<Listener>    // rootComponentListenerList
    var host: Host

    /** The five roots the constructor adds, in order. */
    const BACKGROUND_ROOT: Id
    const COMPONENT_ROOT: Id
    const CONNECTION_ROOT: Id
    const ANNOTATION_ROOT: Id
    const DRAG_ROOT: Id

    /** getCursor(): a panel whose cursor was never set shows the default cursor. */
    function GetCursor(): Ref
      reads this
    {
      Shown(cursor)
    }

    /** The roots and the visible area, as the validation and layout operations read them. */
    function ViewOf(): View
      reads this
    {
      View(roots, host.visible)
    }

    /** The invariant between operations: a valid scene whose roots are
        distinct stored components, the five roots of the constructor still
        stored root components, and every holder of the panel state stored. */
    ghost predicate Valid()
      reads this, scene, state
    {
      scene.Valid() && PanelOk(roots, FixedRoots(), scene.nodes, state.Snapshot())
    }

    function FixedRoots(): set<Id> {
      {BACKGROUND_ROOT, COMPONENT_ROOT, CONNECTION_ROOT, ANNOTATION_ROOT, DRAG_ROOT}
    }

    /** The constructor (snapToGridEnabled, the grid spacings and
        rootComponentNotificationEnabled keep their initialisers). */
    constructor (h: Host)
      ensures Valid() && fresh(state) && fresh(scene)
      ensures roots == [BACKGROUND_ROOT, COMPONENT_ROOT, CONNECTION_ROOT, ANNOTATION_ROOT, DRAG_ROOT]
      ensures FreshPanelScene(scene.nodes, scene.geo, scene.valid, scene.next, scene.log)
      ensures snap && hGridSpacing == DEFAULT_GRID_SPACING && vGridSpacing == DEFAULT_GRID_SPACING
      ensures rootNotify && rootListeners == [] && activeTool == null && cursor == None && host == h
      ensures state.focused == None && state.mousedOver == None && state.mousePressed == None
    {
      var st := new PanelState();
      var sc := new Scene.Initial();
      InitialPanelOk(sc.nodes);
      scene := sc;
      BACKGROUND_ROOT, COMPONENT_ROOT, CONNECTION_ROOT, ANNOTATION_ROOT, DRAG_ROOT := 0, 1, 2, 3, 4;
      roots := [0, 1, 2, 3, 4];
      state := st;
      activeTool := null;
      cursor := None;
      snap, hGridSpacing, vGridSpacing := true, DEFAULT_GRID_SPACING, DEFAULT_GRID_SPACING;
      rootNotify, rootListeners := true, [];
      host := h;
    }
  }

  /** The panel's part of ComponentPanel.Valid, on values: the roots are
      distinct stored components, the fixed roots are stored root
      components, and every holder is stored. */
  predicate PanelOk(roots: seq<Id>, fixed: set<Id>, m: Store, h: Holders) {
    (forall r | r in roots :: r in m) && NoDup(roots)
    && (forall r | r in fixed :: r in m && m[r].kind == Root)
    && h.In(m)
  }

  predicate HoldersIn(st: PanelState, m: Store)
    reads st
  {
    st.Snapshot().In(m)
  }

  /** The components a component keeps in its attributes exist: every entry of
      an adjustable's handle list is a handle, and a drag shadow is a stored
      resizable component. */
  predicate AttrRefsOk(m: Store) {
    (forall c, h {:trigger h in m[c].a.handles} | c in m && h in m[c].a.handles :: h in m && m[h].kind.Handle?)
    && (forall c {:trigger m[c].a.shadow} | c in m :: ShadowOk(m, m[c].a.shadow))
  }

  /** A drag shadow, when there is one, is a stored resizable component. */
  predicate ShadowOk(m: Store, sh: Option<Id>) {
    sh.Some? ==> sh.value in m && IsResizable(m[sh.value].kind)
  }

  /** The scene's invariant: a valid component graph whose attribute
      references exist, and no stored id at or past the counter. */
  ghost predicate SceneInvariant(nodes: Store, rank: map<Id, nat>, next: Id) {
    ValidShape(ShapeOf(nodes), rank) && AttrRefsOk(nodes) && (forall c | c in nodes :: c < next)
  }

  /** The scene's invariant with its geometry and its valid set: every
      component has its geometry, and only components are valid. */
  ghost predicate SceneOk(nodes: Store, geo: Geos, rank: map<Id, nat>, next: Id, valid: set<Id>) {
    SceneInvariant(nodes, rank, next) && geo.Keys == nodes.Keys && valid <= nodes.Keys
  }

  /** The five roots of a new panel, listed in order, make the panel's part
      of the invariant with an empty panel state. */
  /** The scene of a new panel: five panel roots under the ids 0 to 4 at the
      origin with no size, nothing marked valid, the next id 5, and the five
      property changes of the roots taking the panel. */
  ghost predicate FreshPanelScene(m: Store, gm: Geos, valid: set<Id>, next: Id, log: seq<Note>) {
    m.Keys == {0, 1, 2, 3, 4}
    && (forall r | r in m :: IsPanelRoot(m[r]) && r in gm && gm[r] == FreshGeo(Root))
    && valid == {} && next == 5
    && log == [Changed(0, PanelProp), Changed(1, PanelProp), Changed(2, PanelProp), Changed(3, PanelProp), Changed(4, PanelProp)]
  }

  lemma InitialPanelOk(m: Store)
    requires m.Keys == {0, 1, 2, 3, 4} && forall r | r in m :: IsPanelRoot(m[r])
    ensures PanelOk([0, 1, 2, 3, 4], {0, 1, 2, 3, 4}, m, Holders(None, None, None))
  {
    var rs := [0, 1, 2, 3, 4];
    assert forall r | r in rs :: r in m;
    assert forall i, j | 0 <= i < j < |rs| :: rs[i] != rs[j];
  }

  /** Five unlinked components under the ids 0 to 4 make a valid scene. */
  lemma InitialValid(m: Store, rank: map<Id, nat>)
    requires m.Keys == {0, 1, 2, 3, 4} && rank == map[0 := 0, 1 := 0, 2 := 0, 3 := 0, 4 := 0]
    requires forall r | r in m :: m[r].w == Wiring(None, [], [], [], None, None) && m[r].a.handles == [] && m[r].a.shadow.None?
    ensures SceneInvariant(m, rank, 5)
  {
    DetachedValid(m, rank);
  }

  /** The store the panel's constructor builds: five new RootComponents that have taken the panel. */
  method PanelRoots() returns (m: Store, rank: map<Id, nat>)
    ensures m.Keys == {0, 1, 2, 3, 4} && forall r | r in m :: IsPanelRoot(m[r])
    ensures SceneInvariant(m, rank, 5)
  {
    var r0, r1, r2, r3, r4 := PanelRoot(0), PanelRoot(1), PanelRoot(2), PanelRoot(3), PanelRoot(4);
    m := map[0 := r0, 1 := r1, 2 := r2, 3 := r3, 4 := r4];
    rank := map[0 := 0, 1 := 0, 2 := 0, 3 := 0, 4 := 0];
    assert forall r | r in m :: m[r] in {r0, r1, r2, r3, r4};
    InitialValid(m, rank);
  }

  /** What the panel's constructor leaves a root in. */
  predicate IsPanelRoot(n: Node) {
    n.kind == Root && n.a.panel && n.w == Wiring(None, [], [], [], None, None)
    && n.a.handles == [] && n.a.shadow.None?
    && n.a.layout == Some(RootLayout) && n.a.on == InitialFlags(Root)
  }

  /** A root the constructor creates: a new RootComponent that has taken the panel. */
  function PanelRoot(i: Id): (n: Node)
    ensures IsPanelRoot(n)
  {
    var r := Fresh(Root, i, None);
    r.(a := r.a.(panel := true))
  }

  /** A store of unlinked components is valid. */
  lemma DetachedValid(m: Store, rank: map<Id, nat>)
    requires forall c | c in m :: m[c].w == Wiring(None, [], [], [], None, None)
    requires forall c | c in m :: c in rank
    ensures ValidShape(ShapeOf(m), rank)
  {
    var g := ShapeOf(m);
    assert forall c | c in g :: g[c].w == Wiring(None, [], [], [], None, None);
  }

  lemma InsertKeeps(m: Store, gm: Geos, rank: map<Id, nat>, v: set<Id>, c: Id, n: Node, g: Geo)
    requires SceneOk(m, gm, rank, c, v) && n.w == Wiring(None, [], [], [], None, None)
    requires n.a.handles == [] && ShadowOk(m, n.a.shadow)
    ensures c !in m && SceneOk(m[c := n], gm[c := g], rank[c := 0], c + 1, v)
  {
    AddDetached(m, rank, c, n);
    AttrRefsAdd(m, c, n);
  }

  lemma AttrRefsAdd(m: Store, c: Id, n: Node)
    requires AttrRefsOk(m) && c !in m
    requires n.a.handles == [] && ShadowOk(m, n.a.shadow)
    ensures AttrRefsOk(m[c := n])
  {
    var m' := m[c := n];
    forall x, h | x in m' && h in m'[x].a.handles ensures h in m' && m'[h].kind.Handle? {
      assert x != c && h in m[x].a.handles;
    }
    forall x | x in m' ensures ShadowOk(m', m'[x].a.shadow) {
    }
  }

  /** Adding an unlinked component under a new id keeps the store valid. */
  lemma AddDetached(m: Store, rank: map<Id, nat>, c: Id, n: Node)
    requires ValidShape(ShapeOf(m), rank) && c !in m
    requires n.w == Wiring(None, [], [], [], None, None)
    ensures ValidShape(ShapeOf(m[c := n]), rank[c := 0])
  {
    var g := ShapeOf(m);
    assert ShapeOf(m[c := n]) == g[c := Shape(n.kind, n.w)];
    AddShapeKinds(g, c, Shape(n.kind, n.w));
    AddShapeLinks(g, rank, c, Shape(n.kind, n.w));
  }

  lemma AddShapeKinds(g: Shapes, c: Id, s: Shape)
    requires Closed(g) && WellKinded(g) && c !in g
    requires s.w == Wiring(None, [], [], [], None, None)
    ensures Closed(g[c := s]) && WellKinded(g[c := s])
  {
    var g' := g[c := s];
    forall x | x in g' ensures RefsIn(g'[x].w, g'.Keys) {
      if x != c { assert RefsIn(g[x].w, g.Keys); }
    }
    forall x | x in g' ensures KindOk(g', x) {
      if x != c { assert KindOk(g, x); }
    }
  }

  lemma AddShapeLinks(g: Shapes, rank: map<Id, nat>, c: Id, s: Shape)
    requires ValidShape(g, rank) && c !in g
    requires s.w == Wiring(None, [], [], [], None, None)
    ensures Ranked(g[c := s], rank[c := 0]) && ParentChild(g[c := s]) && Linked(g[c := s])
  {
    var g' := g[c := s];
    forall y, q | y in g' && q in g' ensures Par(g', y) == Some(q) <==> y in Kids(g', q) {
      if y != c && q != c {
        assert Par(g', y) == Par(g, y) && Kids(g', q) == Kids(g, q);
      } else if y == c && q != c {
        assert c !in Kids(g, q);
      }
    }
    assert KidsNoDup(g') by {
      forall x | x in g' ensures NoDup(Kids(g', x)) { if x != c { assert Kids(g', x) == Kids(g, x); } }
    }
    forall e | e == Source || e == Dest ensures LinkedEnd(g', e) {
      forall k, x | k in g' && x in g' ensures k in Listed(g'[x].w, e) <==> EndOf(g'[k].w, e) == Some(x) {
        if k != c && x != c {
          assert k in Listed(g[x].w, e) <==> EndOf(g[k].w, e) == Some(x);
        } else if k == c && x != c {
          assert c !in Listed(g[x].w, e);
        }
      }
    }
  }

}
