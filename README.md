# avondale scene graph, modelled in Dafny

avondale is a Java toolkit for retained-mode diagrams. Components live in a
tree. A `ComponentPanel` holds five root components, one per layer:
background, component, connection, annotation and drag. Containers keep an
ordered list of children and lay them out. Connected components keep lists of
the connections that enter and leave them, and each connection keeps its
source and destination. Components validate and invalidate along their parent
chain. They can be moved, resized, nudged with the arrow keys and dragged
with the mouse. Adjustable components carry resize handles. The panel sends
mouse and key events down the tree in reverse z-order, and it keeps the
focused, moused-over and mouse-pressed components, the active tool and the
root listeners.

This project models that engine: the state and geometry logic, without Swing
painting.

## How the model is laid out

- One Dafny module per part of the toolkit:
  - `Spacers`: AbstractSpacer and DefaultSpacer;
  - `Geometry`: rectangles, lines, and Java's truncating `/` and `%`;
  - `Nodes`: a component's class, flags and attributes;
  - `Graph` and `Walks`: the tree, ComponentUtils, the parent-chain walks and hit-testing;
  - `Validation` and `Layouts`: validate, invalidate and the layout strategies;
  - `Connections`: the inbound and outbound lists and the connection ends;
  - `Structure`: addComponent, removeComponent and setParentComponent;
  - `Resizing`: the movable and resizable gating, handle placement and the arrow keys;
  - `Components`: the property setters, the listener lists and the panel-state setters;
  - `Dragging`: DefaultDraggableComponent and DefaultHandle;
  - `Panels` and `PanelOps`: the panel, its state, its tools and its root list;
  - `Events`: the process*Event and fire*Event dispatch;
  - `Hovering`: setMouseOver and ComponentStateMouseHandler.
- Every component object is an entry of a store, `map<Id, Node>`. An `Id`
  stands for a Java object reference. Parent, child and connection links are
  ids.
- The store lives in a `Scene` object that the methods update in place. A
  Scene holds:
  - the nodes;
  - their geometry;
  - the set of valid components;
  - a log.
- The log records each property-change event as a `Changed` note and each
  listener delivery as a `Heard` note. It also records repaint requests and
  panel notifications.
- `ComponentPanel`, `PanelState`, `Tool`, `InputEvent` and `Spacer` are
  classes whose fields the methods update.
- `Scene.Valid()` is the invariant every operation keeps:
  - parent and child links agree;
  - connection ends and connection lists agree;
  - no list holds a duplicate;
  - a ranking shows the parent chain is finite.
- A Java exception is an `Outcome`: `Normal`, or `Thrown(e)` for the exception
  class the code throws. The method's `ensures` states what state the throw
  leaves behind.
- The recursion through validate, layout and invalidate has no measure in the
  source. It can also cycle: a connected container can hold, as its own
  child, a connection that ends at it. So the model takes a `fuel` count, and
  running out of fuel is `Thrown(StackOverflow)`.
- Java `double` coordinates are `int`. Java's truncating division and
  remainder are written out as `JavaDiv` and `JavaRem`.

## Model

| member | source | states |
|---|---|---|
| Spacers.SetAllOutcome | src/com/kallasoft/avondale/AbstractSpacer.java:79-86 | setSpaces(t, b, l, r) ends normally exactly when all four are non-negative and then holds them; a negative argument throws with the earlier setters' writes kept; a non-negative spacer stays non-negative |
| Spacers.Spacer.constructor | src/com/kallasoft/avondale/DefaultSpacer.java:5-8 | a new DefaultSpacer has all four margins 0 and is empty |
| Spacers.Spacer.SetTop | src/com/kallasoft/avondale/AbstractSpacer.java:27-33 | a negative value throws IllegalArgumentException and changes nothing; otherwise only the top margin changes |
| Spacers.Spacer.SetBottom | src/com/kallasoft/avondale/AbstractSpacer.java:40-46 | the same for the bottom margin |
| Spacers.Spacer.SetLeft | src/com/kallasoft/avondale/AbstractSpacer.java:53-59 | the same for the left margin |
| Spacers.Spacer.SetRight | src/com/kallasoft/avondale/AbstractSpacer.java:66-72 | the same for the right margin |
| Spacers.Spacer.SetSpaces | src/com/kallasoft/avondale/AbstractSpacer.java:79-86 | the margins and the outcome are those of SetAll: the four setters in order, stopping at the first throw |
| Spacers.Spacer.SetSpacesFrom | src/com/kallasoft/avondale/AbstractSpacer.java:88-92 | a null spacer throws and changes nothing; otherwise the margins become the other spacer's |
| Spacers.Spacer.GetSpaces | src/com/kallasoft/avondale/AbstractSpacer.java:74-77 | a null target throws; otherwise the target's margins become this spacer's |
| Spacers.NewSpacer | src/com/kallasoft/avondale/DefaultSpacer.java:10-14 | the four-argument constructor succeeds exactly when no margin is negative, with those margins; otherwise IllegalArgumentException |
| Spacers.CopySpacer | src/com/kallasoft/avondale/DefaultSpacer.java:16-20 | the copy constructor gives a fresh spacer with the source's margins; a null source throws |
| Spacers.CopyIsIndependent | src/com/kallasoft/avondale/DefaultSpacer.java:16-20 | a setter on the source after copying leaves the copy's margins as they were |
| Geometry.UnionCovers | trunk/src/com/kallasoft/avondale/component/DefaultResizableComponent.java:22-47 | the union used for the old-plus-new repaint covers both rectangles and is the least rectangle that does |
| Geometry.GrowCovers | trunk/src/com/kallasoft/avondale/component/DefaultComponent.java:198-213 | growing by a border width d >= 0 keeps the bounds inside; a zero width changes nothing |
| Geometry.CoversContains | trunk/src/com/kallasoft/avondale/component/DefaultComponent.java:198-213 | a point inside the bounds is inside the grown preferred bounds |
| Geometry.EndPointsOnSegment | src/com/kallasoft/avondale/component/connection/DefaultConnection.java:41-54 | both end points of a connection line are within any non-negative width of it |
| Geometry.JavaDivRem | trunk/src/com/kallasoft/avondale/component/AbstractResizableComponent.java:152-158 | Java's truncating / and %: a == (a / b) * b + a % b, with the remainder taking the dividend's sign and less than \|b\| in size |
| Geometry.SnapOnGrid | trunk/src/com/kallasoft/avondale/component/AbstractResizableComponent.java:152-158 | y - y % spacing is a whole multiple of the spacing and lies less than one spacing from y, on the side of zero |
| Geometry.GridNeighbours | trunk/src/com/kallasoft/avondale/component/AbstractResizableComponent.java:161-190 | for a positive spacing, the nearest grid lines strictly above and strictly below a value, as the RIGHT/DOWN snap intends |
| Nodes.Fresh | trunk/src/com/kallasoft/avondale/component/AbstractComponent.java:75-94 | a new component has no parent, no children, no panel, and the initial flags of its class |
| Nodes.FreshGeo | trunk/src/com/kallasoft/avondale/component/AbstractComponent.java:75-94 | a new component's bounds are (0, 0, 0, 0), a handle's 6 x 6, and no connection line |
| Nodes.FreshShadow | src/com/kallasoft/avondale/component/DefaultDraggableComponent.java:56-61 | the drag shadow is a parentless resizable component |
| Nodes.PreferredBoundsGrow | trunk/src/com/kallasoft/avondale/component/DefaultComponent.java:198-213 | without a border the preferred bounds are the bounds; with one they grow by its width on every side and cover the bounds |
| Nodes.ComponentShapeInset | trunk/src/com/kallasoft/avondale/component/DefaultComponent.java:255-276 | an empty padding gives (0, 0, W, H); otherwise the shape is inset by each margin |
| Nodes.ContainsIff | trunk/src/com/kallasoft/avondale/component/AbstractComponent.java:265-268 | an invisible component contains no point; a visible non-connection contains exactly the points of its half-open bounds |
| Nodes.ConnectionGeometry | src/com/kallasoft/avondale/component/connection/DefaultConnection.java:41-75 | a connection without a line has bounds (-w, -w, 2w, 2w) and contains nothing; a visible one with a line contains both end points |
| Nodes.FreshComponentFlags | trunk/src/com/kallasoft/avondale/component/AbstractComponent.java:41-48 | a new component is enabled, visible, focusable, not focused, not under the mouse, not pressed, not virtual, and opaque unless it is a root |
| Nodes.StartsClear | trunk/src/com/kallasoft/avondale/component/AbstractComponent.java:41-48 | no constructor sets focused, mouse-over, pressed, virtual, dragging, real-time or directed |
| Nodes.FreshSubclassFlags | src/com/kallasoft/avondale/component/AbstractDraggableComponent.java:8-10 | a draggable starts draggable, not dragging, not real-time; an adjustable shows its handles; a connection is undirected |
| Nodes.FreshFields | src/com/kallasoft/avondale/component/RootComponent.java:17-27 | a root gets the RootComponentLayout; an adjustable has no active handle; a connection is 1 wide; a handle has its anchor's cursor |
| Graph.AncestorOrSelfIff | trunk/src/com/kallasoft/avondale/component/util/ComponentUtils.java:36-56 | an ancestor of x is x's parent or an ancestor of the parent |
| Graph.AncestorHasChildren | trunk/src/com/kallasoft/avondale/component/util/ComponentUtils.java:36-56 | a component that is anybody's ancestor has children in a well-formed graph |
| Graph.AnyChildHoldsIff | trunk/src/com/kallasoft/avondale/component/util/ComponentUtils.java:69-92 | the loop over the children succeeds exactly when some child from index i on is the target or has it below |
| Graph.NoChildrenNoDescendant | trunk/src/com/kallasoft/avondale/component/util/ComponentUtils.java:69-92 | a component without children has no descendant |
| Graph.DescendsToAncestor | trunk/src/com/kallasoft/avondale/component/util/ComponentUtils.java:69-92 | whatever isDescendantOfComponent finds below c has c on its parent chain |
| Graph.AncestorToDescends | trunk/src/com/kallasoft/avondale/component/util/ComponentUtils.java:69-92 | isDescendantOfComponent finds every component that has c on its parent chain |
| Graph.DescendsIffAncestor | trunk/src/com/kallasoft/avondale/component/util/ComponentUtils.java:69-92 | d is below c exactly when c is on d's parent chain |
| Graph.AncestorThroughParent | trunk/src/com/kallasoft/avondale/component/util/ComponentUtils.java:36-56 | the parent of a component above d is itself above d |
| Graph.ChildOnChain | trunk/src/com/kallasoft/avondale/component/util/ComponentUtils.java:69-92 | when c is above d, one child of c is d or above d |
| Graph.AncestorRank | trunk/src/com/kallasoft/avondale/component/util/ComponentUtils.java:36-56 | an ancestor ranks above every component below it, so the parent walk ends |
| Graph.AncestorIffDescendant | trunk/src/com/kallasoft/avondale/component/util/ComponentUtils.java:36-92 | isAncestorOfComponent(d, c) holds exactly when isDescendantOfComponent(c, d) does, null arguments included |
| Graph.NotOwnDescendant | trunk/src/com/kallasoft/avondale/component/util/ComponentUtils.java:69-92 | no component is its own descendant, so the cycle guard lets a container be added to itself |
| Graph.DetachedIsPending | trunk/src/com/kallasoft/avondale/component/AbstractComponent.java:537-547 | a component without a parent is listed by no container |
| Graph.PendingDetached | trunk/src/com/kallasoft/avondale/component/AbstractComponent.java:537-547 | a parentless component that no container lists leaves the graph invariant whole |
| Graph.AttachRanked | trunk/src/com/kallasoft/avondale/component/AbstractComponent.java:537-547 | giving a parentless c, not on x's chain, the parent x keeps the graph acyclic |
| Graph.DetachRanked | trunk/src/com/kallasoft/avondale/component/AbstractComponent.java:537-547 | clearing c's parent keeps the graph acyclic |
| Graph.SetParentStep | trunk/src/com/kallasoft/avondale/component/AbstractContainerComponent.java:81-117 | setting the parent of a detached non-root c to a container x not below c leaves the invariant pending only at c |
| Graph.InsertChildStep | trunk/src/com/kallasoft/avondale/component/AbstractContainerComponent.java:81-117 | listing that child in x's list at any index restores the whole invariant |
| Graph.RemoveChildStep | trunk/src/com/kallasoft/avondale/component/AbstractContainerComponent.java:222-237 | taking entry i out of x's list leaves the invariant pending only at the removed child, whose parent is still x |
| Graph.ClearParentStep | trunk/src/com/kallasoft/avondale/component/AbstractContainerComponent.java:222-237 | clearing that child's parent restores the whole invariant |
| Walks.PanelOfIff | trunk/src/com/kallasoft/avondale/component/AbstractComponent.java:549-560 | getComponentPanel() is non-null exactly when c or one of its ancestors holds the panel |
| Walks.TopOf | trunk/src/com/kallasoft/avondale/component/AbstractComponent.java:510-530 | the end of the parent chain from x is stored and has no parent |
| Walks.TopIsAncestor | trunk/src/com/kallasoft/avondale/component/AbstractComponent.java:510-530 | the end of the chain is x itself, exactly when x has no parent, or one of x's ancestors |
| Walks.RootOfSpec | trunk/src/com/kallasoft/avondale/component/AbstractComponent.java:510-530 | getRootComponent() is null exactly for a parentless non-container; otherwise it is parentless and is c or an ancestor of c, and never c when c has a parent |
| Walks.GetRootComponent | trunk/src/com/kallasoft/avondale/component/AbstractComponent.java:510-530 | the loop up the parent chain returns RootOf |
| Walks.IsRootComponentSpec | src/com/kallasoft/avondale/component/DefaultContainerComponent.java:34-46 | a non-container is a root exactly when parentless; a container with a parent is a root only when listed by a reachable panel; a listed container holding the panel is a root |
| Walks.GetLocationOnComponentPanel | trunk/src/com/kallasoft/avondale/component/util/ComponentUtils.java:142-159 | the loop that adds each parent's location returns LocationOnPanel; null gives null |
| Walks.LocationOnPanelSteps | trunk/src/com/kallasoft/avondale/component/util/ComponentUtils.java:142-159 | a parentless component keeps the point; otherwise the point moves into the parent's space; moving the point moves the result by the same amount |
| Walks.BoundsOnPanel | trunk/src/com/kallasoft/avondale/component/util/ComponentUtils.java:198-207 | getBoundsOnComponentPanel is null exactly for a null component |
| Walks.BoundsOnPanelSize | trunk/src/com/kallasoft/avondale/component/util/ComponentUtils.java:198-207 | the size is kept and the origin goes where getLocationOnComponentPanel sends it |
| Walks.RepaintTargetSpec | trunk/src/com/kallasoft/avondale/component/AbstractComponent.java:608-648 | a tree whose top holds no panel drops every request; a request that reaches the panel is translated by every parent's origin, clipped to no more than its size, and non-empty |
| Walks.ContainingPointMembers | trunk/src/com/kallasoft/avondale/component/AbstractContainerComponent.java:134-147 | the components found at a point are exactly the children that contain it, in order, without duplicates |
| Walks.InsideRectMembers | trunk/src/com/kallasoft/avondale/component/AbstractContainerComponent.java:198-215 | the components found in a rectangle are exactly the children inside it; an empty rectangle finds none |
| Walks.GetComponentsAtLocation | trunk/src/com/kallasoft/avondale/component/AbstractContainerComponent.java:134-147 | the loop over the child list returns ContainingPoint |
| Walks.GetComponentsInBounds | trunk/src/com/kallasoft/avondale/component/AbstractContainerComponent.java:198-215 | a null or empty rectangle gives nothing; otherwise the loop returns InsideRect |
| Walks.PickFromSpec | trunk/src/com/kallasoft/avondale/component/AbstractContainerComponent.java:149-196 | the search from child i finds nothing exactly when no later child contains the point; an answer is a located descendant |
| Walks.PickChildSpec | trunk/src/com/kallasoft/avondale/component/AbstractContainerComponent.java:149-196 | a child containing the point answers for itself or through one of its descendants |
| Walks.RelThrough | trunk/src/com/kallasoft/avondale/component/AbstractContainerComponent.java:149-196 | translating from c's coordinates to a descendant's passes through each container between them |
| Walks.PickAtSpec | trunk/src/com/kallasoft/avondale/component/AbstractContainerComponent.java:149-196 | the intended search finds nothing exactly when no child contains the point; otherwise a descendant that contains the point in its own coordinates |
| Walks.NestedTree | trunk/src/com/kallasoft/avondale/component/AbstractContainerComponent.java:149-196 | the three-level store used for the counterexample is a valid tree |
| Walks.PickAsWrittenMissesNested | trunk/src/com/kallasoft/avondale/component/AbstractContainerComponent.java:170-180 | as written, the search at (12, 12) stops at the middle container although its leaf contains the point; the corrected search finds the leaf |
| Walks.GetComponentAtLocationRecursively | trunk/src/com/kallasoft/avondale/component/AbstractContainerComponent.java:149-196 | the loop with its recursion into container children returns the corrected PickAt |
| Validation.FireValidation | trunk/src/com/kallasoft/avondale/component/AbstractComponent.java:1261-1281 | every validation listener hears the event, in order, unless validation notification is disabled |
| Validation.InvalidationTrans | trunk/src/com/kallasoft/avondale/component/DefaultComponent.java:300-319 | invalidations compose: validity only shrinks, and a component made invalid has its parent made invalid too |
| Validation.InvalidateComponent | trunk/src/com/kallasoft/avondale/component/DefaultComponent.java:300-319 | an invalid component changes nothing; otherwise it ends invalid, validity only shrinks, and every component made invalid has its parent invalid |
| Validation.Invalidate | src/com/kallasoft/avondale/component/DefaultConnectedComponent.java:41-59 | as InvalidateComponent, and a connected component that was valid also leaves every inbound and outbound connection invalid |
| Validation.InvalidateEach | src/com/kallasoft/avondale/component/DefaultConnectedComponent.java:47-53 | the loop over a connection list leaves every entry invalid, with validity only shrinking |
| Validation.ValidateComponent | trunk/src/com/kallasoft/avondale/component/DefaultComponent.java:283-298 | a valid component changes nothing; otherwise it becomes valid, the only change to validity, and fires VALIDATED |
| Validation.Repaint | trunk/src/com/kallasoft/avondale/component/AbstractComponent.java:608-648 | the log gains exactly the repaint that reaches the panel through the parent chain, if any |
| Layouts.CentreLineOfRoots | src/com/kallasoft/avondale/component/connection/DefaultConnection.java:99-116 | between two parentless components the line runs from the centre of one to the centre of the other, as they are |
| Layouts.ValidateConnection | src/com/kallasoft/avondale/component/connection/DefaultConnection.java:82-127 | a valid connection or one missing an end is left alone; otherwise its line becomes the centre line, it becomes valid, and the union of old and new preferred bounds is repainted |
| Layouts.LineAndRepaint | src/com/kallasoft/avondale/component/connection/DefaultConnection.java:108-125 | with both ends present: line set to the centre line, connection valid, union of old and new preferred bounds repainted |
| Layouts.SetLine | src/com/kallasoft/avondale/component/connection/DefaultConnection.java:108-116 | only the connection's line changes, to the given one |
| Layouts.Validate | trunk/src/com/kallasoft/avondale/component/DefaultComponent.java:283-298 | validate() dispatches by class: a valid component or a connection missing an end is left alone, otherwise the component ends valid; a connection only ever adds to the valid set; a connected component ends with its connections settled |
| Layouts.ValidateConnected | src/com/kallasoft/avondale/component/DefaultConnectedComponent.java:20-39 | unless already valid, every inbound connection then every outbound one is validated, then the component itself, which ends valid with its connections settled |
| Layouts.ValidateEach | src/com/kallasoft/avondale/component/DefaultConnectedComponent.java:27-34 | validating a list of connections only adds to the valid set and leaves each one valid or missing an end |
| Layouts.ValidateContainer | src/com/kallasoft/avondale/component/DefaultContainerComponent.java:61-71 | a valid container is left alone; otherwise it is laid out and then validated, and ends valid |
| Layouts.LayoutContainer | trunk/src/com/kallasoft/avondale/component/DefaultAdjustableComponent.java:38-52 | layoutContainer of a non-adjustable container with layout off or already valid changes nothing; for an adjustable one the handles are placed afterwards in any case |
| Layouts.BaseLayout | src/com/kallasoft/avondale/component/DefaultContainerComponent.java:208-261 | with layout off or the container valid nothing changes; otherwise children are laid out first, then the layout, and a root that holds the panel ends with the panel revalidated |
| Layouts.ApplyLayout | src/com/kallasoft/avondale/component/DefaultContainerComponent.java:230-244 | a container without a layout changes nothing; a layout that reports a change lays the parent out in turn |
| Layouts.LayoutChildren | src/com/kallasoft/avondale/component/DefaultContainerComponent.java:222-228 | every child container is laid out in list order, and nothing outside the layout state changes |
| Layouts.FitBoxSpec | src/com/kallasoft/avondale/component/layout/FitToChildrenContainerLayout.java:20-79 | the fitted box has the least child x and y, a width and height no smaller than 0 or any child's and equal to one of them, and is (0, 0, 0, 0) without children |
| Layouts.FitBoxOne | src/com/kallasoft/avondale/component/layout/FitToChildrenContainerLayout.java:41-72 | with a single child of non-negative size the container takes the child's preferred bounds |
| Layouts.FitBoxNotBounding | src/com/kallasoft/avondale/component/layout/FitToChildrenContainerLayout.java:41-72 | children at (0, 0, 10, 10) and (20, 20, 10, 10) give the box (0, 0, 10, 10), which does not cover the second child: the layout takes the largest size, not the furthest edge |
| Layouts.RootSizeSpec | src/com/kallasoft/avondale/component/layout/RootComponentLayout.java:22-81 | the root size reaches every child's far edge and, with a panel, the visible size, and is 0, such an edge or the visible size |
| Layouts.ExtentSpec | src/com/kallasoft/avondale/component/layout/RootComponentLayout.java:32-51 | the furthest child edges are non-negative, reach every child and are 0 or some child's edge |
| Layouts.FitChildren | src/com/kallasoft/avondale/component/layout/FitToChildrenContainerLayout.java:41-70 | the loop validates each invalid child and yields the fitted box of the children's preferred bounds; with every child valid nothing changes |
| Layouts.Lower | src/com/kallasoft/avondale/component/layout/FitToChildrenContainerLayout.java:51-59 | `if (value < x) x = value` from Double.MAX_VALUE: the result is at most value and at most x, and is one of the two |
| Layouts.ReachChildren | src/com/kallasoft/avondale/component/layout/RootComponentLayout.java:32-72 | the loop yields the root size of the children's preferred bounds and the visible area; with every child valid nothing changes |
| Layouts.MeasureChild | src/com/kallasoft/avondale/component/layout/FitToChildrenContainerLayout.java:43-49 | an invalid child is validated; the result is the child's preferred bounds afterwards |
| Layouts.FitToChildrenLayout | src/com/kallasoft/avondale/component/layout/FitToChildrenContainerLayout.java:20-79 | the container gets the fitted box as its bounds, and the result says whether the bounds it had differ from the box |
| Layouts.RootComponentLayout | src/com/kallasoft/avondale/component/layout/RootComponentLayout.java:22-81 | the container gets the root size as its size, and the result says whether that size differs from its old one |
| Layouts.Revalidate | trunk/src/com/kallasoft/avondale/component/AbstractComponent.java:581-585 | invalidate() then validate(): the component ends valid unless it is a connection missing an end, which ends invalid |
| Connections.EndOfConnection | trunk/src/com/kallasoft/avondale/component/connection/AbstractConnection.java:101-127 | a connection's end is a connected component, never the connection itself |
| Connections.ListedEntry | trunk/src/com/kallasoft/avondale/component/AbstractConnectedComponent.java:84-102 | an entry of a connection list is a connection other than the lister, pointing back at it, in a list without repeats |
| Connections.MovingListed | trunk/src/com/kallasoft/avondale/component/connection/AbstractConnection.java:115-123 | while a connection's end is being moved, it sits in exactly the lists of the components recorded as still holding it |
| Connections.RelinkMoves | trunk/src/com/kallasoft/avondale/component/connection/AbstractConnection.java:115-123 | moving the end field to v takes the connection out of the old end's list and into v's |
| Connections.RelinkKeepsShape | trunk/src/com/kallasoft/avondale/component/connection/AbstractConnection.java:101-127 | setXComponent(v) keeps the graph invariant: the end is v, and exactly v lists the connection on that end |
| Connections.AttachAt | trunk/src/com/kallasoft/avondale/component/AbstractConnectedComponent.java:40-61 | adding k at index i inserts it into the list there and points k's end at the lister |
| Connections.AttachMoves | trunk/src/com/kallasoft/avondale/component/AbstractConnectedComponent.java:46-52 | the add from a consistent state leaves k held by the lister alone |
| Connections.AttachKeepsShape | trunk/src/com/kallasoft/avondale/component/AbstractConnectedComponent.java:40-61 | addXConnection(i, k) keeps the graph invariant: k inserted at i, pointing at the lister, and listed by no other component on that end |
| Connections.DetachAtAt | trunk/src/com/kallasoft/avondale/component/AbstractConnectedComponent.java:84-102 | removing entry i takes it out of the list and nulls its end |
| Connections.DetachMoves | trunk/src/com/kallasoft/avondale/component/AbstractConnectedComponent.java:86-92 | the removal from a consistent state leaves the entry held by nobody |
| Connections.DetachAtKeepsShape | trunk/src/com/kallasoft/avondale/component/AbstractConnectedComponent.java:84-102 | removeXConnection(i) keeps the graph invariant: the entry leaves the list, points nowhere on that end and is listed nowhere |
| Connections.AttachSplit | trunk/src/com/kallasoft/avondale/component/AbstractConnectedComponent.java:46-52 | the add is the insertion followed, unless k already points at the lister, by the end's reassignment |
| Connections.DetachIsLeave | trunk/src/com/kallasoft/avondale/component/AbstractConnectedComponent.java:104-113 | removing by value a connection that now points elsewhere is removal from that list only |
| Connections.AttachIsEnter | trunk/src/com/kallasoft/avondale/component/AbstractConnectedComponent.java:35-38 | appending a connection that already points at the lister is its entry into the list |
| Connections.FireConnected | trunk/src/com/kallasoft/avondale/component/AbstractConnectedComponent.java:289-329 | with notification on, every listener hears the event in order; with it off nothing is heard |
| Connections.Announce | trunk/src/com/kallasoft/avondale/component/AbstractConnectedComponent.java:53-60 | after a change of list, the connected-component event then the repaint are appended to the log |
| Connections.AddConnection | trunk/src/com/kallasoft/avondale/component/AbstractConnectedComponent.java:40-61 | a null connection throws IllegalArgumentException and changes nothing; one already listed only repaints; a bad index throws IndexOutOfBoundsException and changes nothing; otherwise the store is Attach and the log ends with the event and the repaint |
| Connections.InsertConnection | trunk/src/com/kallasoft/avondale/component/AbstractConnectedComponent.java:46-57 | the insertion, the end's reassignment and the event: the store becomes Attach |
| Connections.AppendConnection | trunk/src/com/kallasoft/avondale/component/AbstractConnectedComponent.java:35-38 | the one-argument add is the add at the end of the list, with the same null and already-listed cases |
| Connections.RemoveConnectionAt | trunk/src/com/kallasoft/avondale/component/AbstractConnectedComponent.java:84-102 | a bad index throws IndexOutOfBoundsException and changes nothing; otherwise the store is DetachAt and the log ends with the removal event and the repaint |
| Connections.DropConnection | trunk/src/com/kallasoft/avondale/component/AbstractConnectedComponent.java:86-98 | the removal, the end's clearing if it pointed at the lister, and the event: the store becomes DetachAt |
| Connections.RepointIf | trunk/src/com/kallasoft/avondale/component/AbstractConnectedComponent.java:50-51 | the guarded setXComponent changes nothing when the guard fails, and relinks otherwise |
| Connections.RemoveConnection | trunk/src/com/kallasoft/avondale/component/AbstractConnectedComponent.java:104-113 | a null or unlisted connection changes nothing; otherwise it is the removal at its index |
| Connections.Unhook | trunk/src/com/kallasoft/avondale/component/connection/AbstractConnection.java:117-119 | the old end's removeXConnection(this) takes the connection out of that list only, without throwing |
| Connections.Hook | trunk/src/com/kallasoft/avondale/component/connection/AbstractConnection.java:121-123 | the new end's addXConnection(this) puts the connection into that list, without throwing |
| Connections.MoveEnd | trunk/src/com/kallasoft/avondale/component/connection/AbstractConnection.java:101-127 | AbstractConnection.setXComponent: the store becomes Relink, with the old end unlisting and the new end listing the connection |
| Connections.Repoint | trunk/src/com/kallasoft/avondale/component/connection/AbstractConnection.java:101-127 | setXComponent as called from the connected components: only the store effect, Relink |
| Connections.SetEnd | src/com/kallasoft/avondale/component/connection/DefaultConnection.java:129-158 | setting the current end changes nothing; otherwise the store is Relink, the end change is announced, the connection is valid exactly when both ends are present, and the log ends with its repaint |
| Connections.RevalidateAndRepaint | src/com/kallasoft/avondale/component/connection/DefaultConnection.java:139-141 | after revalidate() the connection is valid exactly when both ends are present, and its repaint closes the log |
| Structure.ParentRefusalSpec | src/com/kallasoft/avondale/component/DefaultContainerComponent.java:48-58 | for a parentless component and a container x, the corrected guards refuse x exactly when the tree could not take it: a root (UnsupportedOperationException), a handle outside an adjustable component, or x on the component's own subtree (IllegalArgumentException) |
| Structure.SelfParentAsWritten | src/com/kallasoft/avondale/component/DefaultContainerComponent.java:48-58 | as written, a parentless container may take itself as its parent, after which no ranking of the parent chains exists; the corrected guard refuses it |
| Structure.HandleOrphanAsWritten | src/com/kallasoft/avondale/component/handle/AbstractHandle.java:28-35 | as written, a handle refuses the null parent, so removeComponent leaves it with a parent that no longer lists it; the corrected guard lets it go |
| Structure.ParentLists | trunk/src/com/kallasoft/avondale/component/AbstractComponent.java:537-547 | in a valid graph a component's parent is a stored container that lists it |
| Structure.UnlinkedShape | trunk/src/com/kallasoft/avondale/component/AbstractContainerComponent.java:222-237 | taking entry i out of x's list and clearing its parent keeps the graph valid under the same ranks |
| Structure.RemovalShape | trunk/src/com/kallasoft/avondale/component/DefaultAdjustableComponent.java:121-132 | removeComponent(i), with the handle list kept in step, keeps the scene invariant and leaves the child parentless |
| Structure.DetachedShape | trunk/src/com/kallasoft/avondale/component/AbstractContainerComponent.java:89-98 | the old parent's removeComponent keeps the scene invariant and leaves the child parentless |
| Structure.AttachStep | trunk/src/com/kallasoft/avondale/component/AbstractComponent.java:537-547 | taking x as parent, for a child the guards let through, leaves the graph pending only at the child once x's chain is re-ranked |
| Structure.ListStep | trunk/src/com/kallasoft/avondale/component/AbstractContainerComponent.java:110-110 | listing the pending child in its parent's list restores the graph invariant |
| Structure.AdditionShape | trunk/src/com/kallasoft/avondale/component/DefaultAdjustableComponent.java:95-107 | addComponent for a child the guards let through keeps the scene invariant under some ranking |
| Structure.AdditionLinks | trunk/src/com/kallasoft/avondale/component/AbstractContainerComponent.java:100-110 | after an add the child sits at index i of x's list with x as parent and no panel; no other parent changes, no other list changes |
| Structure.RemoveUndoesAdd | trunk/src/com/kallasoft/avondale/component/AbstractContainerComponent.java:81-117 | removeComponent(i) after addComponent(i, c) restores the store, but for c's cleared panel field |
| Structure.KeepsOldListingAsWritten | trunk/src/com/kallasoft/avondale/component/AbstractContainerComponent.java:89-98 | as written, a non-container child with a parent is not detached, so after the add two lists hold it |
| Structure.LateIndexAsWritten | trunk/src/com/kallasoft/avondale/component/AbstractContainerComponent.java:100-110 | as written, a bad index throws only at the insertion, after the child took x as parent, leaving it with a parent that does not list it |
| Structure.DetachedKeepsOthers | trunk/src/com/kallasoft/avondale/component/AbstractContainerComponent.java:95-97 | detaching c leaves every list that does not hold c as it was |
| Structure.ContainerNotes | trunk/src/com/kallasoft/avondale/component/AbstractContainerComponent.java:340-358 | with notification on, one delivery per container listener in order; with it off, none |
| Structure.FireContainer | trunk/src/com/kallasoft/avondale/component/AbstractContainerComponent.java:340-358 | fireContainerComponentEvent appends exactly those deliveries to the log |
| Structure.LeaveNotes | trunk/src/com/kallasoft/avondale/component/AbstractContainerComponent.java:103-108 | setComponentPanel(null) on the new child announces and repaints exactly when a panel was reachable from it |
| Structure.Unhook | trunk/src/com/kallasoft/avondale/component/AbstractContainerComponent.java:224-230 | the entry leaves the list and its parent is cleared; the property change is logged |
| Structure.Unlink | trunk/src/com/kallasoft/avondale/component/AbstractContainerComponent.java:224-232 | the store writes of removeComponent(i), then COMPONENT_REMOVED to the container listeners |
| Structure.Untrack | trunk/src/com/kallasoft/avondale/component/DefaultAdjustableComponent.java:130-131 | a removed handle leaves the handle list, which changes no repaint of x |
| Structure.Settle | trunk/src/com/kallasoft/avondale/component/AbstractContainerComponent.java:114-116 | revalidate() then repaint(): unless revalidation overflows, the log ends with x's repaint |
| Structure.RemoveComponentAt | trunk/src/com/kallasoft/avondale/component/DefaultAdjustableComponent.java:121-132 | a bad index throws IndexOutOfBoundsException and changes nothing; otherwise the store becomes Removal, the parent change and COMPONENT_REMOVED are logged, and the log ends with x's repaint |
| Structure.RemoveComponent | trunk/src/com/kallasoft/avondale/component/AbstractContainerComponent.java:239-248 | a null or unlisted component changes nothing; otherwise it is removeComponent at its index |
| Structure.Detach | trunk/src/com/kallasoft/avondale/component/AbstractContainerComponent.java:89-98 | a parentless child changes nothing; otherwise the store becomes Detached |
| Structure.TakeParentOk | trunk/src/com/kallasoft/avondale/component/AbstractComponent.java:537-547 | setParentComponent(x) leaves the scene invariant pending only at the child, under a re-ranked chain |
| Structure.LeavePanelOk | trunk/src/com/kallasoft/avondale/component/AbstractComponent.java:562-579 | clearing the child's panel field keeps that pending state |
| Structure.ListChildOk | trunk/src/com/kallasoft/avondale/component/AbstractContainerComponent.java:110-110 | listing the pending child restores the scene invariant |
| Structure.AdoptOk | trunk/src/com/kallasoft/avondale/component/AbstractContainerComponent.java:100-110 | the three store writes of addComponent keep the scene invariant under a re-ranked chain |
| Structure.Attach | trunk/src/com/kallasoft/avondale/component/AbstractContainerComponent.java:100-110 | the parent, panel and list writes: the store becomes Adopted and the parent change and panel notes are logged |
| Structure.Adopt | trunk/src/com/kallasoft/avondale/component/AbstractContainerComponent.java:100-112 | those writes, then COMPONENT_ADDED to the container listeners |
| Structure.TrackHandle | trunk/src/com/kallasoft/avondale/component/DefaultAdjustableComponent.java:102-106 | a handle enters the handle list and is placed; any other child changes nothing |
| Structure.SettleAdded | trunk/src/com/kallasoft/avondale/component/DefaultAdjustableComponent.java:100-106 | x revalidates and repaints, then an adjustable x tracks and places a handle |
| Structure.Join | trunk/src/com/kallasoft/avondale/component/AbstractContainerComponent.java:100-116 | the add of a detached child: the store becomes Addition and the log holds the parent change, panel notes and COMPONENT_ADDED, then x's repaint |
| Structure.AddComponent | trunk/src/com/kallasoft/avondale/component/DefaultAdjustableComponent.java:95-107 | a null child throws NullPointerException and changes nothing; a listed child changes nothing (an adjustable x re-tracks a handle); a bad index throws IndexOutOfBoundsException and changes nothing (corrected: the code as written detaches first, see Findings); otherwise the child is detached and added, or the corrected guard's exception is thrown with only the detachment done |
| Structure.SetContainerLayout | trunk/src/com/kallasoft/avondale/component/AbstractContainerComponent.java:56-69 | setting the current layout changes nothing; otherwise the layout is stored, the property change fires and the container ends invalid |
| Structure.SetComponentPanel | trunk/src/com/kallasoft/avondale/component/AbstractComponent.java:562-579 | setting a panel on a non-root throws RuntimeException and changes nothing; an unchanged panel changes nothing; otherwise the field is set, the property change fires and c repaints |
| Structure.PanelOfAfterSet | trunk/src/com/kallasoft/avondale/component/AbstractComponent.java:549-560 | after the panel field is set, c reaches the panel; after it is cleared, c reaches it exactly when its parent does |
| Resizing.MovedTo | trunk/src/com/kallasoft/avondale/component/AbstractResizableComponent.java:57-69 | a movable component takes the new location and keeps its size; the bounds stay as they were exactly when it is not movable or already there |
| Resizing.SizedTo | trunk/src/com/kallasoft/avondale/component/AbstractResizableComponent.java:76-87 | a resizable component takes the new size and keeps its location; the bounds stay exactly when it is not resizable or already that size |
| Resizing.Gated | trunk/src/com/kallasoft/avondale/component/AbstractResizableComponent.java:100-112 | neither flag keeps the bounds; only resizable keeps the location; only movable keeps the size; both take the request |
| Resizing.BoundsAfter | trunk/src/com/kallasoft/avondale/component/AbstractResizableComponent.java:94-118 | an unchanged request, or a component neither movable nor resizable, keeps the bounds; otherwise the gated request |
| Resizing.GatingSettles | trunk/src/com/kallasoft/avondale/component/DefaultResizableComponent.java:76-101 | the setters are idempotent; and a movable, non-resizable component asked for a new size at its own location passes both guards although its bounds do not change |
| Resizing.MoveTo | trunk/src/com/kallasoft/avondale/component/AbstractResizableComponent.java:57-69 | AbstractResizableComponent.setLocation: the bounds become MovedTo, and LOCATION is announced exactly when they move |
| Resizing.SizeTo | trunk/src/com/kallasoft/avondale/component/AbstractResizableComponent.java:76-87 | AbstractResizableComponent.setSize: the bounds become SizedTo, and SIZE is announced exactly when they change |
| Resizing.BoundsTo | trunk/src/com/kallasoft/avondale/component/AbstractResizableComponent.java:94-118 | AbstractResizableComponent.setBounds: past the two guards the gated request is stored and BOUNDS announced; otherwise nothing changes |
| Resizing.Refresh | trunk/src/com/kallasoft/avondale/component/DefaultResizableComponent.java:35-45 | invalidate() then repaint of the union: the component ends invalid and the log ends with the repaint of its new and old preferred bounds |
| Resizing.SetLocation | trunk/src/com/kallasoft/avondale/component/DefaultResizableComponent.java:22-46 | DefaultResizableComponent.setLocation: the bounds become MovedTo; when nothing moves nothing else changes; otherwise LOCATION, invalidation and the union's repaint |
| Resizing.ResizableSetSize | trunk/src/com/kallasoft/avondale/component/DefaultResizableComponent.java:49-73 | DefaultResizableComponent.setSize: the bounds become SizedTo; when nothing changes nothing else does; otherwise SIZE, invalidation and the union's repaint |
| Resizing.ResizableSetBounds | trunk/src/com/kallasoft/avondale/component/DefaultResizableComponent.java:76-101 | DefaultResizableComponent.setBounds: the bounds become BoundsAfter; past the guards BOUNDS, invalidation and the union's repaint |
| Resizing.HandleAnchor | trunk/src/com/kallasoft/avondale/component/DefaultAdjustableComponent.java:161-208 | each of the nine coordinates puts the handle against the matching edge, or centred on getCenterX() - getX() and getCenterY() - getY() |
| Resizing.HandleInside | trunk/src/com/kallasoft/avondale/component/DefaultAdjustableComponent.java:161-208 | for a component at its parent's origin whose handle fits in it, every anchor keeps the handle inside the component |
| Resizing.CentredHandleOutside | trunk/src/com/kallasoft/avondale/component/AbstractComponent.java:280-293 | getCenterX() halves x + width, so for bounds (100, 0, 50, 50) the CENTER anchor of a 6 x 6 handle is x = -28, outside the component |
| Resizing.Placed | trunk/src/com/kallasoft/avondale/component/DefaultAdjustableComponent.java:161-169 | a placed handle keeps its size and line; a handle without a coordinate stays where it is |
| Resizing.PlacedSettles | trunk/src/com/kallasoft/avondale/component/DefaultAdjustableComponent.java:161-208 | placing a handle twice leaves it where the first placement put it |
| Resizing.UpdateHandlePosition | trunk/src/com/kallasoft/avondale/component/DefaultAdjustableComponent.java:161-208 | the handle is moved through its own setLocation to its anchor, and nothing else moves |
| Resizing.PlaceNext | trunk/src/com/kallasoft/avondale/component/DefaultAdjustableComponent.java:142-143 | one turn of the loop places the next handle |
| Resizing.PlacedAll | trunk/src/com/kallasoft/avondale/component/DefaultAdjustableComponent.java:140-144 | every handle of c is at its anchor, and every other component is where it was |
| Resizing.UpdateHandlePositions | trunk/src/com/kallasoft/avondale/component/DefaultAdjustableComponent.java:140-144 | after the loop the geometry is PlacedAll |
| Resizing.SetSize | trunk/src/com/kallasoft/avondale/component/DefaultAdjustableComponent.java:54-58 | setSize on a resizable component; an adjustable one then places its handles; the component's bounds are SizedTo and SIZE is announced when they change |
| Resizing.SetBounds | trunk/src/com/kallasoft/avondale/component/DefaultAdjustableComponent.java:74-78 | setBounds on a resizable component; an adjustable one then places its handles; the component's bounds are BoundsAfter |
| Resizing.SnapForwardMissesGrid | trunk/src/com/kallasoft/avondale/component/AbstractResizableComponent.java:161-176 | as written, RIGHT from x = 5 with spacing 16 adds 5 % 16 and lands on 10, off the grid |
| Resizing.SnapStepWrongWay | trunk/src/com/kallasoft/avondale/component/AbstractResizableComponent.java:152-201 | as written, with spacing 16, UP from y = 0 stays at 0, LEFT from x = -5 moves forward to 0, and DOWN from y = -5 moves back to -10 |
| Resizing.SnapStepAsWrittenMoves | trunk/src/com/kallasoft/avondale/component/AbstractResizableComponent.java:152-201 | the step as written: backward snaps a - 1 towards zero onto the grid, strictly back from a >= 1 and, from a <= 0, only when a - 1 is on the grid; forward moves one spacing from a grid line and otherwise less than a spacing away from zero (ahead from a > 0, back from a < 0) |
| Resizing.SnapStep | trunk/src/com/kallasoft/avondale/component/AbstractResizableComponent.java:150-203 | the intended (corrected) snap: to the nearest grid line strictly behind (UP, LEFT) or strictly ahead (DOWN, RIGHT), at most one spacing away; spacing 0 leaves the coordinate |
| Resizing.SnapStepAgrees | trunk/src/com/kallasoft/avondale/component/AbstractResizableComponent.java:150-203 | for a positive spacing, backward steps from positive coordinates and forward steps from grid lines at or above 0 are the same as written and as intended |
| Resizing.NudgeTarget | trunk/src/com/kallasoft/avondale/component/AbstractResizableComponent.java:141-204 | the location keyPressed computes, as written: without a panel it stays; without snapping an arrow moves one unit its way; UP and DOWN keep x, LEFT and RIGHT keep y |
| Resizing.NudgeAsWritten | trunk/src/com/kallasoft/avondale/component/AbstractResizableComponent.java:150-203 | with snapping on, as written: UP and LEFT land on the grid, strictly back from a coordinate of at least 1 and otherwise only when the coordinate less one is on the grid; DOWN and RIGHT move one spacing from a grid line, ahead by less than a spacing from a positive off-grid coordinate, and back from a negative one |
| Resizing.NudgeTargetIntended | trunk/src/com/kallasoft/avondale/component/AbstractResizableComponent.java:141-204 | the intended (corrected) nudge: the same as NudgeTarget without a panel or without snapping |
| Resizing.NudgeOnGrid | trunk/src/com/kallasoft/avondale/component/AbstractResizableComponent.java:150-203 | for the intended (corrected) nudge with snapping on, an arrow moves strictly its way onto a grid line at most one spacing away (UP and DOWN on the horizontal spacing, LEFT and RIGHT on the vertical); the code as written does not, see NudgeAsWritten |
| Resizing.NudgeAgrees | trunk/src/com/kallasoft/avondale/component/AbstractResizableComponent.java:150-203 | with positive spacings the nudge as written equals the intended one for UP and LEFT from coordinates >= 1 and for DOWN and RIGHT from grid lines >= 0 |
| Resizing.KeyPressed | trunk/src/com/kallasoft/avondale/component/AbstractResizableComponent.java:133-209 | as written: a non-arrow key changes nothing; an arrow asks setLocation for NudgeTarget's location (the uncorrected snap), and only the component's bounds change, as setLocation gates them |
| Components.RestyleKeeps | trunk/src/com/kallasoft/avondale/component/AbstractComponent.java:317-503 | new attributes that keep the handle list and the drag shadow keep the scene valid and change neither its links nor its classes |
| Components.Toggled | trunk/src/com/kallasoft/avondale/component/AbstractComponent.java:134-147 | after the write the flag is b and every other flag is as it was |
| Components.WithFlag | trunk/src/com/kallasoft/avondale/component/AbstractComponent.java:134-147 | the store with one flag of c written: that flag is b, every other flag of c as it was |
| Components.PutFlag | trunk/src/com/kallasoft/avondale/component/AbstractComponent.java:134-147 | an equal value changes nothing; otherwise the flag is written and one property change is logged |
| Components.SetFlag | trunk/src/com/kallasoft/avondale/component/AbstractComponent.java:114-209 | the boolean setters: an equal value changes nothing; otherwise only that flag changes, its property change is logged, and a repainting flag repaints the component; setFocusable, testing the old value, never clears focused |
| Components.PutFocused | trunk/src/com/kallasoft/avondale/component/AbstractComponent.java:216-229 | AbstractComponent.setFocused: focusing a non-focusable component throws IllegalStateException exactly; a non-focusable component or an equal value changes nothing; otherwise the flag and one property change |
| Components.WithRef | trunk/src/com/kallasoft/avondale/component/AbstractComponent.java:342-503 | the store with one reference property of c written, every other one as it was |
| Components.SetAttr | trunk/src/com/kallasoft/avondale/component/AbstractComponent.java:342-503 | the reference setters (paints, painter, model, layout constraints, tool tip): an equal value changes nothing; otherwise the property changes and is announced, then the paints, painter and model repaint, the constraints invalidate, and the tool tip does neither |
| Components.PutRef | trunk/src/com/kallasoft/avondale/component/AbstractComponent.java:349-351 | the reference is written and its property change logged |
| Components.SetBorder | trunk/src/com/kallasoft/avondale/component/AbstractComponent.java:382-395 | the same border changes nothing; otherwise the border changes, is announced, and the component repaints |
| Components.SetPadding | trunk/src/com/kallasoft/avondale/component/AbstractComponent.java:322-335 | the old value compared is a fresh copy, so every non-null spacer is copied in, announced and repainted; a null spacer throws NullPointerException and changes nothing |
| Components.GetPadding | trunk/src/com/kallasoft/avondale/component/AbstractComponent.java:317-320 | a fresh spacer holding the component's margins |
| Components.SetStrokeWidth | trunk/src/com/kallasoft/avondale/component/connection/AbstractConnection.java:67-95 | a negative width throws IllegalArgumentException and changes nothing; the same stroke changes nothing; otherwise width and stroke are stored and announced |
| Components.SetStroke | trunk/src/com/kallasoft/avondale/component/connection/AbstractConnection.java:56-65 | a non-BasicStroke (null included) throws IllegalArgumentException; otherwise the two-argument setter with the stroke's own line width |
| Components.SetMouseDragging | src/com/kallasoft/avondale/component/AbstractDraggableComponent.java:45-58 | starting a drag on a non-draggable component throws IllegalStateException exactly; an equal value changes nothing; otherwise the flag and its property change |
| Components.DraggableFlags | src/com/kallasoft/avondale/component/AbstractDraggableComponent.java:24-38 | draggable becomes b; dragging is cleared exactly when it was on and draggable is turned on from off (the guard reads the old value); other flags stay |
| Components.SetDraggable | src/com/kallasoft/avondale/component/AbstractDraggableComponent.java:24-38 | an equal value changes nothing; otherwise the flags become DraggableFlags, with the dragging change logged before the draggable one |
| Components.SetRealTimeDragging | src/com/kallasoft/avondale/component/AbstractDraggableComponent.java:65-79 | throws IllegalStateException exactly when a drag is in progress, even for an equal value; otherwise a boolean setter |
| Components.SetDragShadow | src/com/kallasoft/avondale/component/AbstractDraggableComponent.java:86-96 | the same shadow changes nothing; otherwise the shadow is replaced and announced |
| Components.SetActiveHandle | src/com/kallasoft/avondale/component/AbstractAdjustableComponent.java:43-54 | the same handle changes nothing; otherwise the active handle is replaced and announced; the offsets are not stored |
| Components.ListenerAdded | trunk/src/com/kallasoft/avondale/component/AbstractComponent.java:683-690 | a null or already listed listener leaves the list; an index outside 0..size throws IndexOutOfBoundsException; otherwise the listener is inserted at the index, and a list without repeats keeps none |
| Components.AddListener | trunk/src/com/kallasoft/avondale/component/AbstractComponent.java:683-690 | add*Listener(index, l): the list becomes ListenerAdded's, or IndexOutOfBoundsException with nothing changed |
| Components.RemoveListenerAt | trunk/src/com/kallasoft/avondale/component/AbstractComponent.java:712-715 | an index outside the list throws IndexOutOfBoundsException exactly, changing nothing; otherwise that entry leaves the list |
| Components.RemoveListener | trunk/src/com/kallasoft/avondale/component/AbstractComponent.java:717-726 | a null or unlisted listener changes nothing; otherwise its first entry leaves the list, and in a list without repeats it alone is gone |
| Components.RemoveListeners | trunk/src/com/kallasoft/avondale/component/AbstractComponent.java:728-731 | the list is emptied |
| Components.AddThenRemove | trunk/src/com/kallasoft/avondale/component/AbstractComponent.java:683-726 | adding a listener a list does not hold and then removing it restores the list |
| Components.ClaimedFrame | trunk/src/com/kallasoft/avondale/component/DefaultComponent.java:69-95 | the setter changes the flag of c and of the slot's old holder and no other, leaves the other slots alone, and logs only changes of those two |
| Components.ClaimedSpec | trunk/src/com/kallasoft/avondale/component/DefaultComponent.java:69-95 | afterwards c has the flag exactly when b and c was not the holder being cleared; a c that reaches a panel is the slot's holder exactly when it has the flag; a c without a panel changes only its flag; the old holder loses its flag |
| Components.SingleKept | trunk/src/com/kallasoft/avondale/component/DefaultComponent.java:69-171 | the setters keep at most one component in a panel holding the slot's flag, and that one is the holder |
| Components.FlagReach | trunk/src/com/kallasoft/avondale/component/DefaultComponent.java:69-95 | a flag write keeps which components reach a panel |
| Components.PutSlotFlag | trunk/src/com/kallasoft/avondale/component/AbstractComponent.java:216-263 | the super setter on the slot's flag: the view changes as at the start of Claimed |
| Components.ClaimSlot | trunk/src/com/kallasoft/avondale/component/DefaultComponent.java:69-171 | setFocused or setMousePressed on c: the panel view becomes Claimed, and the store changes in that flag alone |
| Components.SetSlot | trunk/src/com/kallasoft/avondale/component/DefaultComponent.java:69-171 | the same on a panel, which stays valid |
| Components.SetFocused | trunk/src/com/kallasoft/avondale/component/DefaultComponent.java:69-95 | DefaultComponent.setFocused: the panel view becomes Claimed for the focused slot |
| Components.SetMousePressed | trunk/src/com/kallasoft/avondale/component/DefaultComponent.java:146-171 | DefaultComponent.setMousePressed: the panel view becomes Claimed for the pressed slot |
| Dragging.Snap | src/com/kallasoft/avondale/component/DefaultDraggableComponent.java:216-220 | `v -= v % s` with Java's remainder lands on a multiple of the spacing, less than one spacing from v toward zero; no snapping or spacing 0 leaves v |
| Dragging.Excess | src/com/kallasoft/avondale/component/handle/DefaultHandle.java:168-177 | the amount an edge moves to reach the grid is exactly what the snap takes off |
| Dragging.DragTarget | src/com/kallasoft/avondale/component/DefaultDraggableComponent.java:212-220 | without snapping the target is the mouse less the press offsets; with it, each coordinate snapped on its own spacing (x on the vertical, y on the horizontal) |
| Dragging.DragFollowsMouse | src/com/kallasoft/avondale/component/DefaultDraggableComponent.java:84-85 | a press at (px, py) on a component at (x, y) and a drag by (dx, dy) asks for (x + dx, y + dy) |
| Dragging.DragTargetOnGrid | src/com/kallasoft/avondale/component/DefaultDraggableComponent.java:216-220 | with snapping on, the target is on the grid and less than one spacing from the unsnapped one |
| Dragging.AnchorTarget | src/com/kallasoft/avondale/component/handle/DefaultHandle.java:145-276 | the rectangle each active coordinate asks for: CENTER keeps the size, the north edges keep the bottom edge, the west ones keep the right edge, EAST and SOUTH keep the location and the other dimension |
| Dragging.HandleResize | src/com/kallasoft/avondale/component/handle/DefaultHandle.java:285-299 | the x/width pair reverts to the old one when it breaks the min/max bounds, and so does the y/height pair, each on its own |
| Dragging.HandleResizeSpec | src/com/kallasoft/avondale/component/handle/DefaultHandle.java:135-300 | the anchor rules survive the bounds check, and every pair that changes is within the bounds |
| Dragging.SouthEastFollowsMouse | src/com/kallasoft/avondale/component/handle/DefaultHandle.java:220-234 | without snapping, SOUTH_EAST asks for the mouse less the location plus the recorded size offsets |
| Dragging.RelinkDragKept | src/com/kallasoft/avondale/component/DefaultDraggableComponent.java:119-122 | adding the shadow to the drag root keeps every drag field |
| Dragging.DetachDragKept | src/com/kallasoft/avondale/component/DefaultDraggableComponent.java:160-164 | removing the shadow from its parent keeps every drag field |
| Dragging.PutDragState | src/com/kallasoft/avondale/component/DefaultDraggableComponent.java:84-104 | only c's drag fields change, to the given offsets, snap flag and spacings |
| Dragging.PressOffsets | src/com/kallasoft/avondale/component/DefaultDraggableComponent.java:84-104 | the offsets of the press are recorded; the snap flag and spacings are copied from a reachable panel (the spacings only when snapping) |
| Dragging.SizeShadow | src/com/kallasoft/avondale/component/DefaultDraggableComponent.java:119-120 | the shadow's bounds become what its setBounds makes of the component's |
| Dragging.PressShadow | src/com/kallasoft/avondale/component/DefaultDraggableComponent.java:110-123 | a missing shadow throws NullPointerException and changes nothing; otherwise the drag fields are kept and the shadow ends a child of the drag root |
| Dragging.JoinDragRoot | src/com/kallasoft/avondale/component/DefaultDraggableComponent.java:121-122 | DRAG_ROOT.addComponent(shadow) leaves the shadow a child of the drag root and keeps the drag fields |
| Dragging.JoinedDragRoot | trunk/src/com/kallasoft/avondale/component/AbstractContainerComponent.java:81-117 | after the add the shadow's parent is the drag root |
| Dragging.DragPressed | src/com/kallasoft/avondale/component/DefaultDraggableComponent.java:81-125 | the press fields are recorded; without a panel or with real-time dragging nothing else changes; otherwise a missing shadow throws NullPointerException and a present one joins the drag root |
| Dragging.UnparentShadow | src/com/kallasoft/avondale/component/DefaultDraggableComponent.java:160-164 | the shadow leaves its parent and keeps the drag fields |
| Dragging.DropShadow | src/com/kallasoft/avondale/component/DefaultDraggableComponent.java:158-173 | the shadow leaves its parent and a movable component moves to the shadow's location |
| Dragging.FollowShadow | src/com/kallasoft/avondale/component/DefaultDraggableComponent.java:171-172 | a movable component ends at the shadow's location |
| Dragging.ResetDrag | src/com/kallasoft/avondale/component/DefaultDraggableComponent.java:133-142 | dragging ends, the snap fields and offsets are reset, and no other flag changes |
| Dragging.DragReleased | src/com/kallasoft/avondale/component/DefaultDraggableComponent.java:128-175 | the drag state is reset; with real-time dragging or no shadow nothing moves; otherwise the shadow is unparented and a movable component moves to it |
| Dragging.StartDrag | src/com/kallasoft/avondale/component/DefaultDraggableComponent.java:205-206 | a component not dragging and not draggable throws IllegalStateException exactly; otherwise it ends dragging |
| Dragging.DragMove | src/com/kallasoft/avondale/component/DefaultDraggableComponent.java:226-234 | real-time dragging moves the component; otherwise a shadow moves; without a shadow nothing changes |
| Dragging.DragDragged | src/com/kallasoft/avondale/component/DefaultDraggableComponent.java:197-235 | mouseDragged: a non-draggable component not dragging throws IllegalStateException and changes nothing; otherwise it ends dragging and the component or its shadow moves to DragTarget of the recorded press; a real-time unsnapped movable component lands at the mouse less the offsets |
| Dragging.PressRealTime | src/com/kallasoft/avondale/component/DefaultDraggableComponent.java:81-125 | a real-time press without snapping moves nothing and records the offsets |
| Dragging.RealTimeTarget | src/com/kallasoft/avondale/component/DefaultDraggableComponent.java:212-227 | without snapping, a movable component's new bounds are the old ones placed at the mouse less the offsets |
| Dragging.DragRealTime | src/com/kallasoft/avondale/component/DefaultDraggableComponent.java:197-235 | a real-time drag without snapping moves the component to the mouse less the offsets |
| Dragging.ReleaseRealTime | src/com/kallasoft/avondale/component/DefaultDraggableComponent.java:128-175 | a real-time release moves nothing |
| Dragging.RealTimeRoundTrip | src/com/kallasoft/avondale/component/DefaultDraggableComponent.java:81-235 | press at (px, py), drag to (px + dx, py + dy), release: a movable real-time component without snapping moves by exactly (dx, dy) |
| Dragging.HandleParent | src/com/kallasoft/avondale/component/handle/DefaultHandle.java:109-109 | a handle's parent is an adjustable component, so the cast succeeds |
| Dragging.NotifyParent | src/com/kallasoft/avondale/component/handle/DefaultHandle.java:112-126 | a parentless handle changes nothing; otherwise the parent's active handle is set and announced only when it changes |
| Dragging.HandlePressed | src/com/kallasoft/avondale/component/handle/DefaultHandle.java:107-115 | the parent, when there is one, takes the handle as its active handle, and no other component changes |
| Dragging.HandleReleased | src/com/kallasoft/avondale/component/handle/DefaultHandle.java:118-127 | the parent, when there is one, has no active handle any more, and no other component changes |
| Dragging.HandleDragged | src/com/kallasoft/avondale/component/handle/DefaultHandle.java:135-300 | a null active handle throws NullPointerException and changes nothing; otherwise the handle's bounds become setBounds of HandleResize |
| Panels.Deliveries | trunk/src/com/kallasoft/avondale/component/AbstractComponent.java:1162-1183 | one Heard note per listener, in the listeners' order, each with the same event |
| Panels.PanelState.SetHolder | src/com/kallasoft/avondale/panel/AbstractComponentPanelState.java:26-87 | the slot holds the new component and the other two do not change; a change is fired exactly when the old value differs |
| Panels.Put | src/com/kallasoft/avondale/panel/tool/AbstractComponentPanelTool.java:56-59 | HashMap.put: the key maps to the value (a null value reads back as absent) and every other key keeps its entry |
| Panels.Tool.constructor | src/com/kallasoft/avondale/panel/tool/AbstractComponentPanelTool.java:19-33 | the six values are put under their keys; the tool starts enabled, inactive, with no saved cursor |
| Panels.Tool.PutValue | src/com/kallasoft/avondale/panel/tool/AbstractComponentPanelTool.java:56-59 | getValue(key) reads back the value, every other key and every other field is kept |
| Panels.Tool.Activate | trunk/src/com/kallasoft/avondale/panel/tool/DefaultComponentPanelTool.java:21-37 | a null panel throws IllegalArgumentException and changes nothing; otherwise the tool becomes active and fires once; a tool with a cursor saves the panel's and installs its own, one without leaves both |
| Panels.Tool.Deactivate | trunk/src/com/kallasoft/avondale/panel/tool/DefaultComponentPanelTool.java:40-61 | a null panel throws IllegalArgumentException, a panel whose active tool is another throws IllegalStateException, both changing nothing; otherwise the saved cursor is restored when there is one and cleared, the tool becomes inactive and fires once |
| Panels.Tool.SetEnabled | src/com/kallasoft/avondale/panel/tool/AbstractComponentPanelTool.java:40-49 | the flag becomes the argument; a change is fired only when it differs, and nothing else changes |
| Panels.NewTool | src/com/kallasoft/avondale/panel/tool/AbstractComponentPanelTool.java:19-33 | the constructor throws IllegalArgumentException exactly when the id is null; otherwise a fresh enabled, inactive tool holds the id and cursor |
| Panels.Scene.Create | src/com/kallasoft/avondale/component/DefaultDraggableComponent.java:29-42 | a new component under a fresh id, unlinked; a draggable component's constructor first creates its drag shadow under the id before it |
| Panels.ComponentPanel.constructor | trunk/src/com/kallasoft/avondale/panel/ComponentPanel.java:93-124 | the five roots in order background, component, connection, annotation, drag; fresh unlinked roots, the default grid, no tool, no listeners, no holders |
| Panels.PanelRoots | trunk/src/com/kallasoft/avondale/panel/ComponentPanel.java:104-108 | the five roots are RootComponents that have taken the panel, and the store they make is valid |
| Panels.PanelRoot | src/com/kallasoft/avondale/component/RootComponent.java:17-26 | a RootComponent: no parent, no children, the root layout, its initial flags |
| Panels.InitialValid | trunk/src/com/kallasoft/avondale/panel/ComponentPanel.java:93-124 | five unlinked components under the ids 0 to 4 satisfy the scene invariant |
| PanelOps.RootNotes | trunk/src/com/kallasoft/avondale/panel/ComponentPanel.java:898-916 | with root notification off nobody hears; otherwise every root listener hears the event once, in order |
| PanelOps.PanelOkInsert | trunk/src/com/kallasoft/avondale/panel/ComponentPanel.java:556-558 | a root added to the list keeps the panel's invariant and is in the list |
| PanelOps.PanelOkRemove | trunk/src/com/kallasoft/avondale/panel/ComponentPanel.java:590-597 | a root removed from the list keeps the panel's invariant and is no longer in it |
| PanelOps.Announce | trunk/src/com/kallasoft/avondale/component/AbstractComponent.java:562-579 | setComponentPanel on a root, then fireRootComponentEvent: taking the panel on a component that is not a root throws RuntimeException and changes nothing; otherwise the flag is written (fired only when it changes) and the root listeners hear the event |
| PanelOps.AddRootComponent | trunk/src/com/kallasoft/avondale/panel/ComponentPanel.java:547-565 | null throws NullPointerException, a root the list holds changes nothing, a bad index throws IndexOutOfBoundsException; otherwise the list gains the root at the index, and the root takes the panel (throwing RuntimeException exactly when it has a parent and reaches no panel) and the listeners hear ROOT_COMPONENT_ADDED |
| PanelOps.AppendRootComponent | trunk/src/com/kallasoft/avondale/panel/ComponentPanel.java:542-545 | a new root goes at the end of the list; null throws, a root the list holds changes nothing |
| PanelOps.RemoveRootComponentAt | trunk/src/com/kallasoft/avondale/panel/ComponentPanel.java:588-603 | a bad index throws IndexOutOfBoundsException and changes nothing; otherwise the root leaves the list, gives up the panel and the listeners hear ROOT_COMPONENT_REMOVED |
| PanelOps.RemoveRootComponent | trunk/src/com/kallasoft/avondale/panel/ComponentPanel.java:605-614 | null or a root the list does not hold changes nothing; otherwise the list loses exactly that root |
| PanelOps.RootListRoundTrip | trunk/src/com/kallasoft/avondale/panel/ComponentPanel.java:542-614 | adding a root that was not in the list and removing it again gives back the list |
| PanelOps.SetComponentPanelState | trunk/src/com/kallasoft/avondale/panel/ComponentPanel.java:437-451 | null throws IllegalArgumentException; the same state object changes nothing; another is taken and the change fired once |
| PanelOps.SetActiveComponentPanelTool | trunk/src/com/kallasoft/avondale/panel/ComponentPanel.java:517-535 | the same tool changes nothing; otherwise the old tool is deactivated (its cursor restored), the new one activated (its cursor installed, the shown one saved) and the change fired once |
| PanelOps.ToolRoundTrip | trunk/src/com/kallasoft/avondale/panel/ComponentPanel.java:517-535 | activating a tool on a panel without one and then clearing it leaves the panel's cursor as it was, the tool inactive, and two changes fired |
| PanelOps.MaxOf | trunk/src/com/kallasoft/avondale/panel/ComponentPanel.java:150-158 | the running maximum is at least the start and every value, and is one of them |
| PanelOps.Extents | trunk/src/com/kallasoft/avondale/panel/ComponentPanel.java:150-155 | the widths or heights of the given components, in order |
| PanelOps.GetPreferredSize | trunk/src/com/kallasoft/avondale/panel/ComponentPanel.java:127-167 | the size is the maximum of the starting size and every root's width and height, after validating the roots; when every root is already valid nothing changes and the sizes are the roots' current ones |
| PanelOps.RootsSize | trunk/src/com/kallasoft/avondale/panel/ComponentPanel.java:140-159 | the loop keeps the running maxima of the widths and heights of the roots seen so far |
| PanelOps.ValidRootBounds | trunk/src/com/kallasoft/avondale/panel/ComponentPanel.java:142-152 | a root that is not valid is validated, then its bounds are read; a valid root changes nothing |
| PanelOps.UnitIncrement | trunk/src/com/kallasoft/avondale/panel/ComponentPanel.java:193-210 | a tenth of the visible width or height, truncated toward zero as Java's int cast does; 0 for any other orientation |
| PanelOps.BlockIncrement | trunk/src/com/kallasoft/avondale/panel/ComponentPanel.java:212-229 | the whole visible width or height; 0 for any other orientation |
| PanelOps.UnitsPerBlock | trunk/src/com/kallasoft/avondale/panel/ComponentPanel.java:193-229 | ten unit increments never overshoot a block, eleven do once the side is positive, and the unit is 0 exactly when the block is under ten |
| Events.FiredAll | trunk/src/com/kallasoft/avondale/component/AbstractComponent.java:1162-1183 | when no listener consumes, every listener hears the event in order and it stays unconsumed |
| Events.FiredFirst | trunk/src/com/kallasoft/avondale/component/AbstractComponent.java:1162-1183 | when listener i is the first that consumes, listeners 0 to i hear it, in order, and the loop stops with the event consumed |
| Events.FiredUpTo | trunk/src/com/kallasoft/avondale/component/AbstractComponent.java:1162-1183 | the notes of the loop are exactly the deliveries up to and including the first consuming listener |
| Events.DeliveriesCons | trunk/src/com/kallasoft/avondale/component/AbstractComponent.java:1162-1183 | delivering to one more listener in front puts its note first |
| Events.Fire | trunk/src/com/kallasoft/avondale/component/AbstractComponent.java:1156-1281 | the fire*Event methods: a disabled notification flag or a consumed event delivers nothing |
| Events.ComponentMouse | trunk/src/com/kallasoft/avondale/component/DefaultComponent.java:377-454 | processMouseEvent ends consumed exactly when the event was consumed or the component is not a root and accepts the event kind at the point (ENTERED when not yet moused over and inside, EXITED when moused over, PRESSED and CLICKED inside, RELEASED when pressed); otherwise nothing is heard |
| Events.ComponentWheel | trunk/src/com/kallasoft/avondale/component/DefaultComponent.java:551-571 | processMouseWheelEvent ends consumed exactly when it was or the component is not a root and contains the point |
| Events.ComponentKey | trunk/src/com/kallasoft/avondale/component/DefaultComponent.java:358-375 | processKeyEvent ends consumed exactly when it was or the component is focused and not a root; otherwise nothing is heard |
| Events.Dispatch | src/com/kallasoft/avondale/component/DefaultContainerComponent.java:102-206 | the virtual process*Event call: an event already consumed is left alone |
| Events.ComponentMotion | trunk/src/com/kallasoft/avondale/component/DefaultComponent.java:456-549 | processMouseMotionEvent: an event already consumed is left alone; otherwise it is consumed exactly when the component is not a root and either the event is a MOVED inside it or while it is moused over, or a DRAGGED while it is pressed; an event it does not consume produces no notes |
| Events.ContainerDispatch | src/com/kallasoft/avondale/component/DefaultContainerComponent.java:102-148 | a container whose bounds do not let in an ENTERED, PRESSED or CLICKED event, or a consumed event, changes nothing |
| Events.ChildrenConsumed | src/com/kallasoft/avondale/component/DefaultContainerComponent.java:136-137 | the loop over the children, last to first, ends consumed exactly when one of the children consumes the event |
| Events.PanelDispatch | trunk/src/com/kallasoft/avondale/panel/ComponentPanel.java:706-760 | the panel's process*Event: an event already consumed is left alone |
| Events.PanelKey | trunk/src/com/kallasoft/avondale/panel/ComponentPanel.java:763-772 | without a focused component nothing happens; otherwise the event ends consumed exactly when it was or the focused component is focused and not a root |
| Events.FiredStep | trunk/src/com/kallasoft/avondale/component/AbstractComponent.java:1162-1183 | one turn of the fire loop delivers to the next listener and continues unless it consumed the event |
| Events.ChildrenStep | src/com/kallasoft/avondale/component/DefaultContainerComponent.java:136-137 | one turn of the loop over the children dispatches to the next child down and continues unless it consumed the event |
| Events.RootsStep | trunk/src/com/kallasoft/avondale/panel/ComponentPanel.java:755-756 | one turn of the loop over the roots dispatches to the next root down and continues unless it consumed the event |
| Events.FireInput | trunk/src/com/kallasoft/avondale/component/AbstractComponent.java:1185-1220 | the listeners of the list hear what Fire says, and the event's consumed flag ends as Fire says |
| Events.FireLoop | trunk/src/com/kallasoft/avondale/component/AbstractComponent.java:1162-1183 | the loop with its invariant: the notes and the consumed flag are those of the specification Fired |
| Events.ProcessComponentMouse | trunk/src/com/kallasoft/avondale/component/DefaultComponent.java:377-454 | the notes and the consumed flag are those ComponentMouse specifies |
| Events.ProcessComponentWheel | trunk/src/com/kallasoft/avondale/component/DefaultComponent.java:551-571 | the notes and the consumed flag are those ComponentWheel specifies |
| Events.ProcessKey | trunk/src/com/kallasoft/avondale/component/DefaultComponent.java:358-375 | the notes and the consumed flag are those ComponentKey specifies |
| Events.ProcessEvent | src/com/kallasoft/avondale/component/DefaultContainerComponent.java:102-206 | the notes and the consumed flag are those Dispatch specifies, and the event's point is restored |
| Events.ProcessComponent | trunk/src/com/kallasoft/avondale/component/DefaultComponent.java:377-571 | the notes and the consumed flag are those Handle specifies |
| Events.ProcessMotion | trunk/src/com/kallasoft/avondale/component/DefaultComponent.java:456-549 | the notes and the consumed flag are those ComponentMotion specifies |
| Events.Reenter | trunk/src/com/kallasoft/avondale/component/DefaultComponent.java:488-509 | a panel's moused-over component first gets MOUSE_EXITED, then the component gets MOUSE_ENTERED, at the same point |
| Events.ProcessContainer | src/com/kallasoft/avondale/component/DefaultContainerComponent.java:102-148 | the notes and the consumed flag are those ContainerDispatch specifies, and the event's point is restored after the translation |
| Events.ContainerSplit | src/com/kallasoft/avondale/component/DefaultContainerComponent.java:128-147 | the children, in the container's coordinates, go first; the container itself only when no child consumed and it is not a root |
| Events.ProcessChildren | src/com/kallasoft/avondale/component/DefaultContainerComponent.java:136-137 | the loop over the children, last to first, with the invariant that the notes so far are those of the children visited |
| Events.ProcessPanel | trunk/src/com/kallasoft/avondale/panel/ComponentPanel.java:706-760 | the notes and the consumed flag are those PanelDispatch specifies: the roots, last to first, until one consumes |
| Events.ProcessRoots | trunk/src/com/kallasoft/avondale/panel/ComponentPanel.java:755-756 | the loop over the roots, last to first, with the invariant that the notes so far are those of the roots visited |
| Events.ProcessPanelKey | trunk/src/com/kallasoft/avondale/panel/ComponentPanel.java:763-772 | the notes and the consumed flag are those PanelKey specifies |
| Hovering.HoveredFrame | trunk/src/com/kallasoft/avondale/component/DefaultComponent.java:98-143 | setMouseOver touches only c's flag and the focused component's, and of the holders only the moused-over slot, which ends as it was, null, or c |
| Hovering.HoveredNotes | trunk/src/com/kallasoft/avondale/component/DefaultComponent.java:98-143 | the only notes are mouse-over changes of c and of the focused component |
| Hovering.HoveredSpec | trunk/src/com/kallasoft/avondale/component/DefaultComponent.java:98-143 | c ends over exactly when b holds and c is not the focused component of its panel; in a panel the moused-over slot then holds c or null; without a panel only the flag and its one note change; the focused component ends not over |
| Hovering.HoverCursor | trunk/src/com/kallasoft/avondale/component/DefaultComponent.java:123-141 | with nothing focused: the flag and the moused-over slot follow b; hovering in installs c's own cursor and saves the shown one (when c has a cursor), hovering out restores the saved cursor and forgets it |
| Hovering.FocusedCannotHover | trunk/src/com/kallasoft/avondale/component/DefaultComponent.java:117-121 | as written, setMouseOver(true) on the focused component turns its own flag off again (the code asks the focused, not the moused-over, component to leave), so the flag, the cursor and the slot end unset |
| Hovering.HoverRoundTrip | trunk/src/com/kallasoft/avondale/component/DefaultComponent.java:98-143 | hovering in and out of a component with nothing focused restores the flags and the slot; the panel ends with the cursor that was shown, never null |
| Hovering.OverStep | trunk/src/com/kallasoft/avondale/component/AbstractComponent.java:134-147 | writing the mouse-over flag moves c in or out of the set of hovered components and changes nothing else hovering reads |
| Hovering.OldCursorStep | trunk/src/com/kallasoft/avondale/component/DefaultComponent.java:133-140 | writing c's saved cursor changes that cursor alone |
| Hovering.PutMouseOver | trunk/src/com/kallasoft/avondale/component/DefaultComponent.java:100-106 | the flag write and its note; the result says whether c reaches a panel |
| Hovering.PutOldCursor | trunk/src/com/kallasoft/avondale/component/DefaultComponent.java:133-140 | c's saved cursor changes and nothing else |
| Hovering.HoverOn | trunk/src/com/kallasoft/avondale/component/DefaultComponent.java:98-143 | the view after the call is the one Hovered specifies; only mouse-over flags and saved cursors change in the store |
| Hovering.ActHover | trunk/src/com/kallasoft/avondale/component/DefaultComponent.java:103-142 | as HoverOn, for a component whose flag changes |
| Hovering.SettleHover | trunk/src/com/kallasoft/avondale/component/DefaultComponent.java:106-142 | the panel part of setMouseOver: the view ends as HoverSettled specifies |
| Hovering.SettleHoverCursor | trunk/src/com/kallasoft/avondale/component/DefaultComponent.java:123-141 | the moused-over slot takes c or null (fired when it changes), then the cursor is installed or restored as the flag says |
| Hovering.SwapCursor | trunk/src/com/kallasoft/avondale/component/DefaultComponent.java:126-141 | hovering in with an own cursor saves the shown cursor and installs c's; hovering out restores the saved cursor (null when none) and forgets it; otherwise nothing changes |
| Hovering.SetMouseOver | trunk/src/com/kallasoft/avondale/component/DefaultComponent.java:98-143 | the whole view (flags, holders, cursor, saved cursors, notes) ends as Hovered specifies, and the panel stays valid |
| Hovering.MouseReleased | trunk/src/com/kallasoft/avondale/component/DefaultComponent.java:643-660 | c is no longer pressed, and is over exactly when it was and the release point is inside it |
| Hovering.Unpress | trunk/src/com/kallasoft/avondale/component/DefaultComponent.java:647-647 | c is no longer pressed and keeps its mouse-over flag |
| Hovering.UnpressedStore | trunk/src/com/kallasoft/avondale/component/DefaultComponent.java:146-171 | after setMousePressed(false) c is not pressed and keeps its mouse-over flag |
| Hovering.Unhover | trunk/src/com/kallasoft/avondale/component/DefaultComponent.java:659-659 | c is no longer over and keeps its mouse-pressed flag |
| Hovering.UnhoveredStore | trunk/src/com/kallasoft/avondale/component/DefaultComponent.java:98-143 | after setMouseOver(false) c is not over and keeps its mouse-pressed flag |
| Hovering.StateHandler | trunk/src/com/kallasoft/avondale/component/DefaultComponent.java:587-667 | ENTERED and EXITED are setMouseOver(true/false), PRESSED claims the mouse-pressed slot, RELEASED unpresses and unhovers outside the bounds, CLICKED claims focus; the other kinds change nothing |
| Connections.LinkIn | trunk/src/com/kallasoft/avondale/component/AbstractConnectedComponent.java:46-52 | the store after the insertion and the back-link is Attach: the connection in the list at the index and pointed at the component; an end already pointing here needs no call back and changes no geometry |
| Connections.ListIn | trunk/src/com/kallasoft/avondale/component/AbstractConnectedComponent.java:49-49 | the list insertion alone: the connection itself is untouched, and the later back-link completes Attach |
| Connections.LinkOut | trunk/src/com/kallasoft/avondale/component/AbstractConnectedComponent.java:86-92 | the store after the removal is DetachAt: the entry leaves the list and its end is nulled only when it still points here |
| Connections.ListOut | trunk/src/com/kallasoft/avondale/component/AbstractConnectedComponent.java:88-88 | the list removal alone: the connection is untouched, and the later unlink completes DetachAt |
| Components.ActSlot | trunk/src/com/kallasoft/avondale/component/DefaultComponent.java:69-171 | setFocused or setMousePressed on a component whose flag changes: the view ends as Claimed specifies |
| Components.SettleSlot | trunk/src/com/kallasoft/avondale/component/DefaultComponent.java:69-171 | the panel part of those setters: the view ends as Settled specifies |

## Left out

- Painting:
  - `paintComponent`, the grid lines, borders and Graphics2D work are not modelled;
  - a repaint request becomes a note in the log holding the rectangle that reaches the panel;
  - the floor and ceiling conversions of `repaint` are not modelled.
- The panel's scale is taken to be 1:
  - `getScaledLocation` becomes the identity;
  - `getPreferredSize` does not multiply by the scale.
- Java `double` coordinates are integers:
  - `getCenterX` and `getCenterY` halve `x + w` with Java's truncating division, so an odd sum loses its half;
  - `Line2D.ptSegDist` is replaced by a comparison of squared distances.
- Snapping with a spacing of 0: in Java, `x % 0.0` is NaN. The model leaves the coordinate where it is. This affects `Dragging.Snap`, `Resizing.NudgeTarget`, `Resizing.SnapStep` and the handle resize.
- Tooltips:
  - the tooltip calls of `ComponentStateMouseHandler.mouseEntered` and `mouseExited` are not modelled;
  - the tooltip manager, renderer and display panel are not modelled.
- Swing plumbing:
  - a `Cursor` is an opaque reference, compared for identity;
  - `requestFocus` and `hasFocus` in `setFocusedComponent` are not modelled;
  - `getOnScreen*` and `scrollRectToVisible` are not modelled;
  - `getScrollableTracksViewportWidth` and `getScrollableTracksViewportHeight` always return false and are not modelled.
- The panel's Swing surroundings (its visible rectangle, its own size and its parent's size) are a `Host` value given to the panel's constructor.
- Property-change support is not modelled. Each `firePropertyChangeEvent` is a `Changed` note in the log. The tools and the panel state keep their own list of fired properties.
- Listener objects:
  - a delivery is a `Heard` note;
  - an application listener is `External`, with a flag that says whether it consumes the event;
  - the toolkit's own handlers never consume. They are modelled as separate operations (`Hovering.StateHandler`, `Dragging.DragPressed`, `Dragging.DragDragged`, `Dragging.DragReleased`, `Dragging.HandlePressed`, `Dragging.HandleReleased`, `Dragging.HandleDragged`), not run inside the dispatch.
- The event value classes are not modelled. An `InputEvent` object holds a kind, a point and a consumed flag, and `translatePoint` and `consume` act on it. Source objects, timestamps and modifiers are not modelled.
- The members of DefaultHandle's motion handler that no shown file defines are not invented (the active handle, the offsets, the snap settings and `getMinX` and its siblings). `HandleInputs` passes them to `Dragging.HandleResize` as a parameter.
- Recursion uses fuel:
  - validate, layout, invalidate, the setters and the add and remove operations take a `fuel` count;
  - running out of fuel is `Thrown(StackOverflow)`, and every contract allows for that outcome;
  - the upward re-layout of `layoutContainer` has no termination measure in the source, and fuel bounds it.
- Not modelled in ComponentPanel:
  - the grid paint, stroke, enabled and spacing setters;
  - the scale, overview-panel and tooltip-manager setters;
  - `addRootComponentListener`, `removeRootComponentListener` and `setRootComponentNotificationEnabled`.
  The snap flag, the spacings, the root listeners and the notification flag are fields that the handlers and `fireRootComponentEvent` read. The listener-list operations have the same shape as the component lists in `Components.AddListener` and `Components.RemoveListener`.
- The `ComponentModel`, layout constraints, paints and painter are opaque attributes. Their setters are `Components.SetAttr`.
- The `synchronized` singleton accessors of the two layouts are not modelled. A layout is a value.
- Several panels in one scene: a scene holds exactly one `ComponentPanel`, and every component whose parent chain reaches a panel holder reaches that one. `getComponentPanel()` becomes the yes-or-no `PanelOf`, and the `ComponentPanelState` that `setFocused`, `setMouseOver`, `setMousePressed`, the drag press and the MOUSE_EXITED re-dispatch read is always that panel's. Components under two different panels sharing one store are not modelled. The members that rely on this are `Walks.PanelOfIff`, `Components.ClaimedSpec`, `Hovering.HoveredSpec`, `Dragging.PressOffsets` and `Events.ComponentMotion`.
- Dragging.RealTimeRoundTrip: the press, drag and release round trip is proved for real-time dragging only. In shadow mode, each handler's effect on the shadow and the component is stated separately (`Dragging.DragPressed`, `Dragging.DragDragged`, `Dragging.DragReleased`), but not chained into one statement.
- Dragging.DragPressed: states the shadow's new parent, not its new bounds. `Dragging.SizeShadow` states those for the step that sets them.
- Events.Dispatch: its own contract says only that a consumed event is left alone. The dispatch rules are its definition. `Events.ProcessEvent` and the other methods are proved to produce exactly what it defines, and `Events.ContainerSplit` and `Events.ChildrenConsumed` state its shape.
- Events.PanelDispatch: the same as `Events.Dispatch`, for the panel's loop over its roots.

## Behaviour modelled as written

These spots look unintended but are kept as the code has them:

- `setMouseOver` asks the panel's focused component, not its moused-over one, to leave (`Hovering.FocusedCannotHover`).
- `setFocusable` and `setDraggable` test the old value before assigning.
- FitToChildrenContainerLayout takes the largest child width and height, not a bounding box.
- Re-adding a handle appends it to the handle list again.
- `setPadding` always fires.
- `keyPressed` takes the snapping step as written (`Resizing.KeyPressed` asks for `Resizing.NudgeTarget`); the intended step is `Resizing.NudgeTargetIntended`, and `Resizing.NudgeAgrees` says where the two agree.
- `getCenterX` and `getCenterY` halve `x + w` and `y + h` (`Resizing.CentredHandleOutside`).

## Findings

| source | as written | input that shows it | evidently intended | confidence | as-written member | corrected member |
|---|---|---|---|---|---|---|
| trunk/src/com/kallasoft/avondale/component/AbstractContainerComponent.java:89-98 | `addComponent` removes a child from its old parent only when the child is a container | a leaf component with parent q is added to another container x: q still lists it while its parent is x | every child leaves its old parent's list first | high; not executed | Structure.KeepsOldListingAsWritten | Structure.AddComponent |
| src/com/kallasoft/avondale/component/handle/AbstractHandle.java:28-35 | `setParentComponent(null)` on a handle throws IllegalArgumentException | `removeComponent(i)` on an adjustable component whose entry i is a handle: the entry has left the list, then the throw leaves the handle with a parent that does not list it | a handle may lose its parent | high; not executed | Structure.HandleOrphanAsWritten | Structure.RemoveComponentAt |
| src/com/kallasoft/avondale/component/DefaultContainerComponent.java:48-58 | the cycle guard asks whether the new parent is a descendant of this container, which is false for the container itself | `c.setParentComponent(c)` on a parentless container is accepted, and the parent chain never ends | a container may not become its own parent | high; not executed | Structure.SelfParentAsWritten | Structure.ParentRefusalSpec |
| trunk/src/com/kallasoft/avondale/component/AbstractResizableComponent.java:161-176 | RIGHT and DOWN with snapping add `x % spacing` | x = 5, spacing 16: RIGHT moves to 10, which is not on the grid | move to the next grid line, 16 | medium; not executed | Resizing.SnapForwardMissesGrid | Resizing.NudgeTargetIntended |
| trunk/src/com/kallasoft/avondale/component/AbstractResizableComponent.java:152-201 | UP and LEFT with snapping step back one unit and then subtract `y % spacing`, whose sign follows the coordinate; DOWN and RIGHT add `y % spacing` | spacing 16: UP from y = 0 stays at 0, LEFT from x = -5 moves forward to 0, and DOWN from y = -5 moves back to -10 | every arrow moves strictly its way, onto the next grid line | medium; not executed | Resizing.SnapStepWrongWay | Resizing.NudgeTargetIntended |
| trunk/src/com/kallasoft/avondale/component/AbstractContainerComponent.java:170-180 | the recursive query translates the point by the container's own location, not by the child's | a container at (100, 100) holding a container at (10, 10, 50, 50) that holds a leaf at (0, 0, 5, 5); the query at (12, 12) returns the middle container | translate by the child's location, which finds the leaf | medium; not executed | Walks.PickAsWrittenMissesNested | Walks.GetComponentAtLocationRecursively |
| trunk/src/com/kallasoft/avondale/component/AbstractContainerComponent.java:100-110 | the index is checked only by `componentList.add`, after the child has taken its new parent | `addComponent(5, c)` on a container with no children: IndexOutOfBoundsException, and c has a parent that does not list it | check the index before anything changes | high; not executed | Structure.LateIndexAsWritten | Structure.AddComponent |
