/**
 * One component of the scene graph, as the value stored under its id: the
 * class it was created as, its links to other components, and every other
 * field of the Java class hierarchy
 * DefaultComponent > AbstractResizableComponent > ... > DefaultAdjustableComponent
 * (fields a class does not have keep their defaults). Its geometry is a
 * separate value, kept beside it.
 */
module Nodes {
  import opened Outcomes
  import opened Geometry
  import opened Spacers

  /** The identity of a component object. */
  type Id = int

  /** The identity of any other object the toolkit only stores and compares:
      a paint, a painter, a model, a tooltip, a layout constraint, a cursor. */
  type Ref = nat

  /** Handle.Coordinate. */
  datatype Coordinate = Center | NorthWest | North | NorthEast | East | SouthEast | South | SouthWest | West

  /** The concrete class a component was created as. */
  datatype Kind =
    | Basic                // DefaultComponent
    | Resizable            // DefaultResizableComponent, also the drag shadow
    | Connected            // DefaultConnectedComponent
    | Container            // DefaultContainerComponent
    | Root                 // RootComponent
    | Draggable            // DefaultDraggableComponent
    | Adjustable           // DefaultAdjustableComponent
    | Handle(coord: Option<Coordinate>)   // DefaultHandle, and its fixed Coordinate
    | Connection           // DefaultConnection

  /** `instanceof ResizableComponent`: everything but DefaultComponent and connections. */
  predicate IsResizable(k: Kind) { !k.Basic? && !k.Connection? }
  /** `instanceof ConnectedComponent`. */
  predicate IsConnectedKind(k: Kind) { k.Connected? || IsContainer(k) }
  /** `instanceof ContainerComponent`. */
  predicate IsContainer(k: Kind) { k.Container? || k.Root? || IsDraggable(k) }
  /** `instanceof DraggableComponent`. */
  predicate IsDraggable(k: Kind) { k.Draggable? || k.Adjustable? }

  /** The boolean fields of the hierarchy. */
  datatype Flag =
    // AbstractComponent
    | Opaque | Enabled | Visible | Virtual | Focused | Focusable | MouseOver | MousePressed
    | KeyNotify | MouseNotify | MotionNotify | WheelNotify | ValidationNotify
    // AbstractResizableComponent
    | Movable | Sizable
    // AbstractConnectedComponent, AbstractContainerComponent
    | ConnectedNotify | ContainerNotify | LayoutEnabled
    // AbstractDraggableComponent, AbstractAdjustableComponent
    | DragEnabled | Dragging | RealTime | ShowHandles
    // AbstractConnection
    | Directed

  /** The flags a component of kind k has as fields. */
  predicate HasFlag(k: Kind, f: Flag) {
    match f
    case Movable | Sizable => IsResizable(k)
    case ConnectedNotify => IsConnectedKind(k)
    case ContainerNotify | LayoutEnabled => IsContainer(k)
    case DragEnabled | Dragging | RealTime => IsDraggable(k)
    case ShowHandles => k.Adjustable?
    case Directed => k.Connection?
    case _ => true
  }

  /** The listener lists of the hierarchy. */
  datatype ListKind = KeyList | MouseList | MotionList | WheelList | ValidationList | ConnectedList | ContainerList

  /** A listener object. The toolkit's own handlers are inner-class instances that
      act on the component that created them; `External` stands for one of the
      application's listeners. */
  datatype Listener =
    | StateHandler(owner: Id)          // DefaultComponent.ComponentStateMouseHandler
    | DragHandler(owner: Id)           // DefaultDraggableComponent.DraggableComponentStateMouseHandler
    | DragMotionHandler(owner: Id)     // DefaultDraggableComponent.DraggableComponentStateMouseMotionHandler
    | HandleHandler(owner: Id)         // DefaultHandle.HandleMouseHandler
    | HandleMotionHandler(owner: Id)   // DefaultHandle.HandleMouseMotionHandler
    | DirectionKeys(owner: Id)         // AbstractResizableComponent.DirectionKeyHandler
    | External(tag: nat, consumes: bool)   // a listener added from outside; `consumes` says whether it consumes the events it hears

  /** The ContainerLayout of a container: one of the two shared singletons
      (FitToChildrenContainerLayout.getInstance(), RootComponentLayout.getInstance()). */
  datatype Layout = FitToChildren | RootLayout

  /** A ComponentBorder instance and the width it reports. */
  datatype Border = Border(inst: nat, width: nat)

  /** A connection stroke: a BasicStroke has a line width. */
  datatype Stroke = BasicStroke(inst: nat, lineWidth: int) | OtherStroke(inst: nat)

  /** The reference-valued properties that have plain setters. */
  datatype Attr = BackgroundPaint | ForegroundPaint | Painter | Model | ToolTip | Constraints

  /** The links of a component to other components. */
  datatype Wiring = Wiring(
    parent: Option<Id>,      // AbstractComponent.parentComponent
    children: seq<Id>,       // AbstractContainerComponent.componentList
    inbound: seq<Id>,        // AbstractConnectedComponent.inboundConnectionList
    outbound: seq<Id>,       // AbstractConnectedComponent.outboundConnectionList
    source: Option<Id>,      // AbstractConnection.sourceComponent
    dest: Option<Id>)        // AbstractConnection.destinationComponent

  /** What the geometry setters and a connection's validation change, kept
      apart from the rest of a component (as DefaultComponent.valid is kept as
      the scene's set of valid components). */
  datatype Geo = Geo(
    bounds: Rect,            // AbstractComponent.bounds
    line: Option<Line>)      // DefaultConnection.line

  /** The geometry of every component, by id. */
  type Geos = map<Id, Geo>

  /** The geometry stored for c; a component with none stored has empty
      bounds and no line. */
  function GeoOf(g: Geos, c: Id): Geo {
    if c in g then g[c] else Geo(Rect(0, 0, 0, 0), None)
  }

  function BoundsOf(g: Geos, c: Id): Rect { GeoOf(g, c).bounds }

  /** Every other field. */
  datatype Attrs = Attrs(
    on: set<Flag>,                          // the boolean fields that are true
    panel: bool,                            // componentPanel != null (the scene has one panel)
    padding: Spaces,
    border: Option<Border>,
    refs: map<Attr, Ref>,                   // an absent key is null
    cursor: Option<Ref>,
    oldCursor: Option<Ref>,                 // DefaultComponent.oldCursor
    lists: map<ListKind, seq<Listener>>,    // an absent key is an empty list
    layout: Option<Layout>,
    shadow: Option<Id>,                     // AbstractDraggableComponent.dragShadowComponent
    offX: int, offY: int,                   // DefaultDraggableComponent.mousePressedXYOffsets
    snap: bool, hSpacing: int, vSpacing: int,
    activeHandle: Option<Id>,
    handles: seq<Id>,                       // DefaultAdjustableComponent.handleList
    width: int,                             // AbstractConnection.connectionWidth
    stroke: Option<Stroke>)

  /** A component object, apart from its geometry. */
  datatype Node = Node(kind: Kind, w: Wiring, a: Attrs)
  {
    predicate Is(f: Flag) { f in a.on }
    function List(k: ListKind): seq<Listener> { if k in a.lists then a.lists[k] else [] }
    function Parent(): Option<Id> { w.parent }
  }

  // Constant objects the constructors install.
  const DEFAULT_PAINTER: Ref := 1           // DefaultComponentPainter.getInstance()
  const CONNECTION_PAINTER: Ref := 2        // DefaultConnectionPainter.getInstance()
  const WHITE: Ref := 3                     // Color.WHITE, a handle's background
  const SHADOW_PAINT: Ref := 4              // the drag shadow's translucent background
  const LINE_BORDER := Border(1, 1)         // DefaultHandle.DEFAULT_BORDER, a 1-wide LineComponentBorder
  const SHADOW_BORDER := Border(2, 1)       // the drag shadow's 1-wide LineComponentBorder
  const SOLID_LINE_STROKE := BasicStroke(0, 1)
  const DEFAULT_CONNECTION_WIDTH := 1
  const DEFAULT_HANDLE_SIZE := 6            // DefaultHandle.DEFAULT_WIDTH and DEFAULT_HEIGHT

  /** Cursor.getPredefinedCursor(type), identified by its type number. */
  function CursorFor(c: Coordinate): Ref {
    match c
    case Center => 13      // MOVE_CURSOR
    case NorthWest => 6    // NW_RESIZE_CURSOR
    case North => 8        // N_RESIZE_CURSOR
    case NorthEast => 7    // NE_RESIZE_CURSOR
    case East => 11        // E_RESIZE_CURSOR
    case SouthEast => 5    // SE_RESIZE_CURSOR
    case South => 9        // S_RESIZE_CURSOR
    case SouthWest => 4    // SW_RESIZE_CURSOR
    case West => 10        // W_RESIZE_CURSOR
  }

  /** The flags that start out true in a component of kind k: the field
      initialisers, and `setOpaque(false)` in the RootComponent constructor. */
  function InitialFlags(k: Kind): set<Flag> {
    (if k.Root? then {} else {Opaque})
    + {Enabled, Visible, Focusable, KeyNotify, MouseNotify, MotionNotify, WheelNotify, ValidationNotify}
    + (if IsResizable(k) then {Movable, Sizable} else {})
    + (if IsConnectedKind(k) then {ConnectedNotify} else {})
    + (if IsContainer(k) then {ContainerNotify, LayoutEnabled} else {})
    + (if IsDraggable(k) then {DragEnabled} else {})
    + (if k.Adjustable? then {ShowHandles} else {})
  }

  /** The mouse and motion listeners the constructors register. */
  function InitialLists(k: Kind, self: Id): map<ListKind, seq<Listener>> {
    match k
    case Handle(_) => map[MouseList := [StateHandler(self), HandleHandler(self)], MotionList := [HandleMotionHandler(self)]]
    case Draggable | Adjustable => map[MouseList := [StateHandler(self), DragHandler(self)], MotionList := [DragMotionHandler(self)]]
    case _ => map[MouseList := [StateHandler(self)]]
  }

  /** The state a constructor leaves a new component in, for a component whose
      constructor completes (a handle needs a coordinate). `shadow` is the drag
      shadow the DefaultDraggableComponent constructor creates. */
  function Fresh(k: Kind, self: Id, shadow: Option<Id>): (n: Node)
    ensures n.w.parent == None && n.w.children == [] && n.a.panel == false
    ensures n.a.on == InitialFlags(k)
  {
    Node(k,
      Wiring(None, [], [], [], None, None),
      Attrs(
        on := InitialFlags(k),
        panel := false,
        padding := Zero,
        border := if k.Handle? then Some(LINE_BORDER) else None,
        refs := map[Painter := if k.Connection? then CONNECTION_PAINTER else DEFAULT_PAINTER]
                + (if k.Handle? then map[BackgroundPaint := WHITE] else map[]),
        cursor := if k.Handle? && k.coord.Some? then Some(CursorFor(k.coord.value)) else None,
        oldCursor := None,
        lists := InitialLists(k, self),
        layout := if k.Root? then Some(RootLayout) else None,
        shadow := if IsDraggable(k) then shadow else None,
        offX := 0, offY := 0, snap := false, hSpacing := 0, vSpacing := 0,
        activeHandle := None,
        handles := [],
        width := DEFAULT_CONNECTION_WIDTH,
        stroke := Some(SOLID_LINE_STROKE)))
  }

  /** The geometry a constructor leaves: bounds (0, 0, 0, 0), or 6 x 6 for a
      handle, and no line. */
  function FreshGeo(k: Kind): (g: Geo)
    ensures g.line == None && g.bounds.x == 0 && g.bounds.y == 0
    ensures k.Handle? ==> g.bounds.w == DEFAULT_HANDLE_SIZE && g.bounds.h == DEFAULT_HANDLE_SIZE
    ensures !k.Handle? ==> g.bounds.w == 0 && g.bounds.h == 0
  {
    var size := if k.Handle? then DEFAULT_HANDLE_SIZE else 0;
    Geo(Rect(0, 0, size, size), None)
  }

  /** DragShadowComponent: a resizable component with a 1-wide border and a
      translucent background. */
  function FreshShadow(self: Id): (n: Node)
    ensures n.kind == Resizable && n.w.parent == None
  {
    var n := Fresh(Resizable, self, None);
    n.(a := n.a.(border := Some(SHADOW_BORDER), refs := n.a.refs[BackgroundPaint := SHADOW_PAINT]))
  }

  // ---------------------------------------------------------------------------
  // Derived geometry (DefaultComponent, DefaultConnection, AbstractComponent).

  /** The segment box of a connection, or (0, 0, 0, 0) before it has a line. */
  function LineBox(g: Geo): Rect {
    if g.line.Some? then LineBounds(g.line.value) else Rect(0, 0, 0, 0)
  }

  /** getBounds(): the bounds field, except for a connection, whose bounds are the
      box of its line grown by the connection width. */
  function GetBounds(n: Node, g: Geo): Rect {
    if n.kind.Connection? then Grow(LineBox(g), n.a.width) else g.bounds
  }

  /** getPreferredBounds(): the bounds grown by the border width on every side. */
  function PreferredBounds(n: Node, g: Geo): Rect {
    if n.a.border.Some? then Grow(GetBounds(n, g), n.a.border.value.width) else GetBounds(n, g)
  }

  /** getComponentShape(): the padded inner rectangle in local coordinates. */
  function ComponentShape(n: Node, g: Geo): Rect {
    var p := n.a.padding;
    var W, H := g.bounds.w, g.bounds.h;
    if p == Zero then Rect(0, 0, W, H)
    else Rect(p.left, p.top, W - (p.left + p.right), H - (p.top + p.bottom))
  }

  /** contains(x, y): a visible component containing the point in its half-open
      bounds; a connection instead asks whether the point lies within the
      connection width of its line. */
  predicate ContainsPoint(n: Node, g: Geo, px: int, py: int) {
    if n.kind.Connection? then
      n.Is(Visible) && g.line.Some? && WithinDistance(g.line.value, px, py, n.a.width)
    else n.Is(Visible) && Contains(GetBounds(n, g), px, py)
  }

  /** getCenterX() and getCenterY(), as written: (x + width) / 2, on the bounds field. */
  function CenterX(g: Geo): int { JavaDiv(g.bounds.x + g.bounds.w, 2) }
  function CenterY(g: Geo): int { JavaDiv(g.bounds.y + g.bounds.h, 2) }

  /** A border of width w moves every edge of the preferred bounds out by w, and
      without a border the preferred bounds are the bounds. Either way they cover
      the bounds of a component with non-negative size. */
  lemma PreferredBoundsGrow(n: Node, g: Geo)
    ensures n.a.border.None? ==> PreferredBounds(n, g) == GetBounds(n, g)
    ensures n.a.border.Some? ==>
      var b, w := GetBounds(n, g), n.a.border.value.width;
      PreferredBounds(n, g) == Rect(b.x - w, b.y - w, b.w + 2 * w, b.h + 2 * w)
    ensures Covers(PreferredBounds(n, g), GetBounds(n, g))
  {
    if n.a.border.Some? { GrowCovers(GetBounds(n, g), n.a.border.value.width); }
  }

  /** An empty padding gives the whole (0, 0, W, H); otherwise the shape is inset by
      each margin, so its far edges sit `right` and `bottom` inside W and H. */
  lemma ComponentShapeInset(n: Node, g: Geo)
    ensures n.a.padding == Zero ==> ComponentShape(n, g) == Rect(0, 0, g.bounds.w, g.bounds.h)
    ensures var s, p := ComponentShape(n, g), n.a.padding;
      s.x == p.left && s.y == p.top
      && s.x + s.w == g.bounds.w - p.right && s.y + s.h == g.bounds.h - p.bottom
  {
  }

  /** An invisible component contains no point; a visible non-connection contains
      exactly the points of its half-open bounds. */
  lemma ContainsIff(n: Node, g: Geo, px: int, py: int)
    ensures !n.Is(Visible) ==> !ContainsPoint(n, g, px, py)
    ensures !n.kind.Connection? ==>
      (ContainsPoint(n, g, px, py) <==>
        n.Is(Visible) && g.bounds.x <= px < g.bounds.x + g.bounds.w
        && g.bounds.y <= py < g.bounds.y + g.bounds.h)
  {
  }

  /** A connection without a line has bounds (-w, -w, 2w, 2w) and contains nothing;
      with a line and a visible connection, both end points are on it. */
  lemma ConnectionGeometry(n: Node, g: Geo)
    requires n.kind.Connection?
    ensures g.line.None? ==>
      GetBounds(n, g) == Rect(-n.a.width, -n.a.width, 2 * n.a.width, 2 * n.a.width)
      && forall px, py :: !ContainsPoint(n, g, px, py)
    ensures g.line.Some? && n.Is(Visible) && n.a.width >= 0 ==>
      ContainsPoint(n, g, g.line.value.x1, g.line.value.y1)
      && ContainsPoint(n, g, g.line.value.x2, g.line.value.y2)
  {
    if g.line.Some? && n.a.width >= 0 { EndPointsOnSegment(g.line.value, n.a.width); }
  }

  /** A new component starts enabled, visible and focusable, not focused, not under
      the mouse, not pressed and not virtual; it is opaque unless it is a root. */
  lemma FreshComponentFlags(k: Kind)
    ensures Enabled in InitialFlags(k) && Visible in InitialFlags(k) && Focusable in InitialFlags(k)
    ensures Focused !in InitialFlags(k) && MouseOver !in InitialFlags(k)
    ensures MousePressed !in InitialFlags(k) && Virtual !in InitialFlags(k)
    ensures Opaque in InitialFlags(k) <==> !k.Root?
  {
    StartsClear(k, Focused);
    StartsClear(k, MouseOver);
    StartsClear(k, MousePressed);
    StartsClear(k, Virtual);
  }

  /** The state flags no constructor sets. */
  lemma StartsClear(k: Kind, f: Flag)
    requires f in {Focused, MouseOver, MousePressed, Virtual, Dragging, RealTime, Directed}
    ensures f !in InitialFlags(k)
  {
    var base: set<Flag> := {Enabled, Visible, Focusable, KeyNotify, MouseNotify, MotionNotify, WheelNotify, ValidationNotify};
    assert f !in base;
  }

  /** A draggable can be dragged but is not being dragged and is not in real-time
      mode; an adjustable shows its handles; a connection is undirected. */
  lemma FreshSubclassFlags(k: Kind)
    ensures IsDraggable(k) ==> DragEnabled in InitialFlags(k)
    ensures Dragging !in InitialFlags(k) && RealTime !in InitialFlags(k)
    ensures k.Adjustable? ==> ShowHandles in InitialFlags(k)
    ensures Directed !in InitialFlags(k)
  {
    StartsClear(k, Dragging);
    StartsClear(k, RealTime);
    StartsClear(k, Directed);
  }

  /** A root gets a RootComponentLayout; an adjustable has no active handle; a
      connection is 1 wide; a handle has its anchor's cursor. */
  lemma FreshFields(k: Kind, self: Id, shadow: Option<Id>, n: Node)
    requires n == Fresh(k, self, shadow)
    ensures n.a.layout == if k.Root? then Some(RootLayout) else None
    ensures n.a.activeHandle == None && n.a.width == 1
    ensures k.Handle? && k.coord.Some? ==> n.a.cursor == Some(CursorFor(k.coord.value))
  {
  }
}
