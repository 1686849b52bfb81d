/**
 * Event delivery: the fire*Event loops of AbstractComponent, the
 * process*Event acceptance rules of DefaultComponent, the reverse z-order
 * dispatch of DefaultContainerComponent and the root-level dispatch of
 * ComponentPanel. A listener that hears an event leaves a Heard note; the
 * component tree is not changed while an event travels through it.
 */
module Events {
  import opened Outcomes
  import opened Seqs
  import opened Geometry
  import opened Nodes
  import opened Graph
  import opened Walks
  import opened Panels

  /** What delivering an event leaves: the notes of the listeners it reached,
      and whether the event ends up consumed. */
  datatype Run = Run(notes: seq<Note>, consumed: bool)

  /** No listener reached, consumption as it was. */
  function Idle(consumed: bool): Run { Run([], consumed) }

  /** Whether a listener consumes what it hears: the toolkit's own handlers
      never do; an application listener says. */
  predicate Consumes(l: Listener) { l.External? && l.consumes }

  // ---------------------------------------------------------------------------
  // The fire*Event loops.

  /** The loop `for (i = 0; !evt.isConsumed() && i < size; i++)` over ls, on
      an event that is not consumed yet. */
  function Fired(ls: seq<Listener>, ev: Event): Run
  {
    if |ls| == 0 then Idle(false)
    else if Consumes(ls[0]) then Run([Heard(ls[0], ev)], true)
    else
      var r := Fired(ls[1..], ev);
      Run([Heard(ls[0], ev)] + r.notes, r.consumed)
  }

  /** When no listener consumes, the loop reaches every listener in order
      and the event stays unconsumed. */
  lemma {:induction false} FiredAll(ls: seq<Listener>, ev: Event)
    requires forall i | 0 <= i < |ls| :: !Consumes(ls[i])
    ensures Fired(ls, ev) == Run(Deliveries(ls, ev), false)
  {
    if |ls| > 0 {
      assert !Consumes(ls[0]);
      FiredAll(ls[1..], ev);
      DeliveriesCons(ls[0], ls[1..], ev);
      assert [ls[0]] + ls[1..] == ls;
    }
  }

  /** When listener i is the first that consumes, the loop reaches the
      listeners 0 to i, in order, and stops with the event consumed. */
  lemma FiredFirst(ls: seq<Listener>, i: nat, ev: Event)
    requires i < |ls| && Consumes(ls[i]) && forall j | 0 <= j < i :: !Consumes(ls[j])
    ensures Fired(ls, ev) == Run(Deliveries(ls[..i + 1], ev), true)
  {
    FiredUpTo(ls, i, ev);
    var d := Deliveries(ls[..i + 1], ev);
    assert forall j | 0 <= j <= i :: d[j] == Heard(ls[j], ev);
    assert Fired(ls, ev).notes == d;
  }

  /** The loop's notes, one by one, up to the first listener that consumes. */
  lemma {:induction false} FiredUpTo(ls: seq<Listener>, i: nat, ev: Event)
    requires i < |ls| && Consumes(ls[i]) && forall j | 0 <= j < i :: !Consumes(ls[j])
    ensures var r := Fired(ls, ev);
      r.consumed && |r.notes| == i + 1 && forall j | 0 <= j <= i :: r.notes[j] == Heard(ls[j], ev)
  {
    if i > 0 {
      assert !Consumes(ls[0]);
      var tail := ls[1..];
      assert forall j | 0 <= j < i - 1 :: tail[j] == ls[j + 1];
      FiredUpTo(tail, i - 1, ev);
      var r := Fired(tail, ev);
      assert Fired(ls, ev) == Run([Heard(ls[0], ev)] + r.notes, r.consumed);
      forall j | 0 < j <= i ensures Fired(ls, ev).notes[j] == Heard(ls[j], ev) {
        assert Fired(ls, ev).notes[j] == r.notes[j - 1] && tail[j - 1] == ls[j];
      }
    }
  }

  /** Deliveries to a list with one more listener in front. */
  lemma {:induction false} DeliveriesCons(l: Listener, ls: seq<Listener>, ev: Event)
    ensures Deliveries([l] + ls, ev) == [Heard(l, ev)] + Deliveries(ls, ev)
  {
    var a, b := Deliveries([l] + ls, ev), [Heard(l, ev)] + Deliveries(ls, ev);
    assert |a| == |b|;
    forall i | 0 <= i < |a| ensures a[i] == b[i] {
      if i > 0 { assert ([l] + ls)[i] == ls[i - 1]; }
    }
  }

  /** fireKeyEvent, fireMouseEvent, fireMouseMotionEvent and
      fireMouseWheelEvent on component n, for the list lk that flag f
      switches: nothing when notification is off or the event is consumed,
      otherwise the loop. */
  function Fire(n: Node, lk: ListKind, f: Flag, ev: Event, consumed: bool): (r: Run)
    ensures !n.Is(f) || consumed ==> r == Idle(consumed)
  {
    if !n.Is(f) || consumed then Idle(consumed) else Fired(n.List(lk), ev)
  }

  // ---------------------------------------------------------------------------
  // DefaultComponent.processMouseEvent, processMouseWheelEvent, processKeyEvent.

  /** The events a channel carries: process(Mouse|MouseMotion|MouseWheel)Event. */
  datatype Channel = MouseCh | MotionCh | WheelCh

  /** Whether processMouseEvent takes an event of kind k at (x, y). */
  predicate Accepts(n: Node, g: Geo, k: MouseKind, x: int, y: int) {
    match k
    case Entered => !n.Is(MouseOver) && ContainsPoint(n, g, x, y)
    case Exited => n.Is(MouseOver)
    case Pressed | Clicked => ContainsPoint(n, g, x, y)
    case Released => n.Is(MousePressed)
    case _ => false
  }

  /** DefaultComponent.processMouseEvent on n, a root component or not: a
      consumed event, or any event on a root, is left alone; an accepted
      event goes to the mouse listeners and is then consumed; any other is
      left alone. */
  function ComponentMouse(n: Node, g: Geo, root: bool, k: MouseKind, x: int, y: int, consumed: bool): (r: Run)
    ensures r.consumed <==> consumed || (!root && Accepts(n, g, k, x, y))
    ensures consumed || root || !Accepts(n, g, k, x, y) ==> r == Idle(consumed)
  {
    if consumed || root || !Accepts(n, g, k, x, y) then Idle(consumed)
    else Run(Fire(n, MouseList, MouseNotify, MouseEv(k, x, y), false).notes, true)
  }

  /** DefaultComponent.processMouseWheelEvent: a wheel event inside a
      component that is not a root goes to its wheel listeners and is
      consumed. */
  function ComponentWheel(n: Node, g: Geo, root: bool, x: int, y: int, consumed: bool): (r: Run)
    ensures r.consumed <==> consumed || (!root && ContainsPoint(n, g, x, y))
  {
    if consumed || root || !ContainsPoint(n, g, x, y) then Idle(consumed)
    else Run(Fire(n, WheelList, WheelNotify, MouseEv(WheelMoved, x, y), false).notes, true)
  }

  /** DefaultComponent.processKeyEvent: a key event reaches the key listeners
      of a focused component that is not a root, and is then consumed. */
  function ComponentKey(n: Node, root: bool, k: KeyKind, code: int, consumed: bool): (r: Run)
    ensures r.consumed <==> consumed || (n.Is(Focused) && !root)
    ensures consumed || !n.Is(Focused) || root ==> r == Idle(consumed)
  {
    if consumed || !n.Is(Focused) || root then Idle(consumed)
    else Run(Fire(n, KeyList, KeyNotify, KeyEv(k, code), false).notes, true)
  }

  // ---------------------------------------------------------------------------
  // The virtual process*Event calls over a component tree.

  /** The order of the dispatch functions: a motion event may send a mouse
      event to another component, never the other way round. */
  function Phase(ch: Channel): nat { if ch.MotionCh? then 1 else 0 }

  /** c.processMouseEvent (MouseCh), c.processMouseMotionEvent (MotionCh) or
      c.processMouseWheelEvent (WheelCh) on an event of kind k at (x, y), in
      the coordinates of c's parent: a container's override, else
      DefaultComponent's. h is the panel state's holders. */
  function Dispatch(m: Store, gm: Geos, ghost rank: map<Id, nat>, roots: seq<Id>, h: Holders,
                    ch: Channel, c: Id, k: MouseKind, x: int, y: int, consumed: bool): (r: Run)
    requires Tree(m, rank) && c in m && h.In(m)
    ensures consumed ==> r == Idle(true)
    decreases Phase(ch), rank[c], 2, 0
  {
    if IsContainer(m[c].kind) then ContainerDispatch(m, gm, rank, roots, h, ch, c, k, x, y, consumed)
    else Handle(m, gm, rank, roots, h, ch, c, k, x, y, consumed)
  }

  /** DefaultComponent's process*Event on c. */
  function Handle(m: Store, gm: Geos, ghost rank: map<Id, nat>, roots: seq<Id>, h: Holders,
                  ch: Channel, c: Id, k: MouseKind, x: int, y: int, consumed: bool): (r: Run)
    requires Tree(m, rank) && c in m && h.In(m)
    ensures consumed ==> r == Idle(true)
    decreases Phase(ch), rank[c], 0, 1
  {
    var root := IsRootComponent(m, rank, roots, c);
    match ch
    case MouseCh => ComponentMouse(m[c], GeoOf(gm, c), root, k, x, y, consumed)
    case WheelCh => ComponentWheel(m[c], GeoOf(gm, c), root, x, y, consumed)
    case MotionCh => ComponentMotion(m, gm, rank, roots, h, c, k, x, y, consumed)
  }

  /** DefaultComponent.processMouseMotionEvent on c: a move inside c is
      consumed; if c was not under the mouse, the component the panel state
      holds as moused over first gets a MOUSE_EXITED (when c reaches the
      panel), then c gets a MOUSE_ENTERED, both through the virtual
      processMouseEvent; a move outside c while c is under the mouse sends c
      a MOUSE_EXITED and is consumed; a drag while c is pressed goes to the
      motion listeners and is consumed. */
  function ComponentMotion(m: Store, gm: Geos, ghost rank: map<Id, nat>, roots: seq<Id>, h: Holders,
                           c: Id, k: MouseKind, x: int, y: int, consumed: bool): (r: Run)
    requires Tree(m, rank) && c in m && h.In(m)
    ensures consumed ==> r == Idle(true)
    ensures !consumed ==>
      (r.consumed <==>
         !IsRootComponent(m, rank, roots, c)
         && ((k == Moved && (ContainsPoint(m[c], GeoOf(gm, c), x, y) || m[c].Is(MouseOver)))
             || (k == Dragged && m[c].Is(MousePressed))))
    ensures !r.consumed ==> r == Idle(false)
    decreases Phase(MotionCh), rank[c], 0, 0
  {
    var n, g := m[c], GeoOf(gm, c);
    if consumed || IsRootComponent(m, rank, roots, c) then Idle(consumed)
    else if k == Moved then
      if ContainsPoint(n, g, x, y) then
        if n.Is(MouseOver) then Run(Fire(n, MotionList, MotionNotify, MouseEv(Moved, x, y), false).notes, true)
        else
          var exited := if PanelOf(m, rank, c) && h.over.Some?
                        then Dispatch(m, gm, rank, roots, h, MouseCh, h.over.value, Exited, x, y, false).notes
                        else [];
          var entered := Dispatch(m, gm, rank, roots, h, MouseCh, c, Entered, x, y, false).notes;
          Run(exited + entered, true)
      else if n.Is(MouseOver) then
        Run(Dispatch(m, gm, rank, roots, h, MouseCh, c, Exited, x, y, false).notes, true)
      else Idle(false)
    else if k == Dragged && n.Is(MousePressed) then
      Run(Fire(n, MotionList, MotionNotify, MouseEv(Dragged, x, y), false).notes, true)
    else Idle(false)
  }

  /** Whether a container lets an event of kind k at (x, y) in at all: a
      MOUSE_ENTERED, MOUSE_PRESSED or MOUSE_CLICKED outside it is dropped
      before its children see it. */
  predicate LetsIn(n: Node, g: Geo, ch: Channel, k: MouseKind, x: int, y: int) {
    !(ch == MouseCh && k in {Entered, Pressed, Clicked} && !ContainsPoint(n, g, x, y))
  }

  /** DefaultContainerComponent's process*Event on container c: the event,
      translated into c's coordinates, goes to the children from the top of
      the z-order down until one consumes it; the translation is undone, and
      an event still not consumed goes to DefaultComponent's handling when c
      is not a root. */
  function ContainerDispatch(m: Store, gm: Geos, ghost rank: map<Id, nat>, roots: seq<Id>, h: Holders,
                             ch: Channel, c: Id, k: MouseKind, x: int, y: int, consumed: bool): (r: Run)
    requires Tree(m, rank) && c in m && h.In(m)
    ensures consumed || !LetsIn(m[c], GeoOf(gm, c), ch, k, x, y) ==> r == Idle(consumed)
    decreases Phase(ch), rank[c], 1, 0
  {
    if consumed || !LetsIn(m[c], GeoOf(gm, c), ch, k, x, y) then Idle(consumed)
    else
      var b := BoundsOf(gm, c);
      var kids := Children(m, gm, rank, roots, h, ch, c, k, x - b.x, y - b.y, |m[c].w.children|);
      if kids.consumed || IsRootComponent(m, rank, roots, c) then kids
      else
        var own := Handle(m, gm, rank, roots, h, ch, c, k, x, y, false);
        Run(kids.notes + own.notes, own.consumed)
  }

  /** The loop over c's children i - 1, i - 2, ..., 0 while the event is
      not consumed. */
  function Children(m: Store, gm: Geos, ghost rank: map<Id, nat>, roots: seq<Id>, h: Holders,
                    ch: Channel, c: Id, k: MouseKind, x: int, y: int, i: nat): (r: Run)
    requires Tree(m, rank) && c in m && h.In(m) && i <= |m[c].w.children|
    decreases Phase(ch), rank[c], 0, i
  {
    if i == 0 then Idle(false)
    else
      var d := m[c].w.children[i - 1];
      assert StepsDown(m, rank, c, d);
      var top := Dispatch(m, gm, rank, roots, h, ch, d, k, x, y, false);
      if top.consumed then top
      else
        var rest := Children(m, gm, rank, roots, h, ch, c, k, x, y, i - 1);
        Run(top.notes + rest.notes, rest.consumed)
  }

  /** Whether the dispatch over c's children i - 1 down to 0 ends consumed:
      exactly when one of them consumes the event. */
  lemma {:induction false} ChildrenConsumed(m: Store, gm: Geos, rank: map<Id, nat>, roots: seq<Id>, h: Holders,
                                            ch: Channel, c: Id, k: MouseKind, x: int, y: int, i: nat)
    requires Tree(m, rank) && c in m && h.In(m) && i <= |m[c].w.children|
    ensures forall j | 0 <= j < i :: StepsDown(m, rank, c, m[c].w.children[j])
    ensures Children(m, gm, rank, roots, h, ch, c, k, x, y, i).consumed <==>
      exists j | 0 <= j < i && StepsDown(m, rank, c, m[c].w.children[j]) ::
        Dispatch(m, gm, rank, roots, h, ch, m[c].w.children[j], k, x, y, false).consumed
  {
    var kids := m[c].w.children;
    forall j | 0 <= j < i ensures StepsDown(m, rank, c, kids[j]) {
      assert StepsDown(m, rank, c, kids[j]);
    }
    if i > 0 {
      ChildrenConsumed(m, gm, rank, roots, h, ch, c, k, x, y, i - 1);
    }
  }

  /** The dispatch over the panel's roots i - 1 down to 0, while the event
      is not consumed. */
  function RootsRun(m: Store, gm: Geos, ghost rank: map<Id, nat>, roots: seq<Id>, h: Holders,
                    ch: Channel, k: MouseKind, x: int, y: int, i: nat): (r: Run)
    requires Tree(m, rank) && h.In(m) && (forall d | d in roots :: d in m) && i <= |roots|
  {
    if i == 0 then Idle(false)
    else
      var top := Dispatch(m, gm, rank, roots, h, ch, roots[i - 1], k, x, y, false);
      if top.consumed then top
      else
        var rest := RootsRun(m, gm, rank, roots, h, ch, k, x, y, i - 1);
        Run(top.notes + rest.notes, rest.consumed)
  }

  /** ComponentPanel's process(Mouse|MouseMotion|MouseWheel)Event: the roots
      from the last to the first until one consumes the event. */
  function PanelDispatch(m: Store, gm: Geos, ghost rank: map<Id, nat>, roots: seq<Id>, h: Holders,
                         ch: Channel, k: MouseKind, x: int, y: int, consumed: bool): (r: Run)
    requires Tree(m, rank) && h.In(m) && (forall d | d in roots :: d in m)
    ensures consumed ==> r == Idle(true)
  {
    if consumed then Idle(true) else RootsRun(m, gm, rank, roots, h, ch, k, x, y, |roots|)
  }

  /** ComponentPanel.processKeyEvent: the focused component, if any, gets
      the event through processKeyEvent. */
  function PanelKey(m: Store, ghost rank: map<Id, nat>, roots: seq<Id>, h: Holders,
                    k: KeyKind, code: int, consumed: bool): (r: Run)
    requires Walkable(m, rank) && h.In(m)
    ensures h.focused.None? ==> r == Idle(consumed)
    ensures h.focused.Some? ==> (r.consumed <==> consumed || (m[h.focused.value].Is(Focused) && !IsRootComponent(m, rank, roots, h.focused.value)))
  {
    if h.focused.None? then Idle(consumed)
    else ComponentKey(m[h.focused.value], IsRootComponent(m, rank, roots, h.focused.value), k, code, consumed)
  }

  // ---------------------------------------------------------------------------
  // The methods, on event objects.

  /** A loop over listeners or components that has left the notes acc so
      far and either has stopped with the event consumed or goes on with
      rest. */
  function Resume(acc: seq<Note>, consumed: bool, rest: Run): Run {
    if consumed then Run(acc, true) else Run(acc + rest.notes, rest.consumed)
  }

  /** One more turn of the fire loop. */
  lemma FiredStep(ls: seq<Listener>, i: nat, acc: seq<Note>, ev: Event)
    requires i < |ls|
    ensures Resume(acc, false, Fired(ls[i..], ev)) == Resume(acc + [Heard(ls[i], ev)], Consumes(ls[i]), Fired(ls[i + 1..], ev))
  {
    assert ls[i..][0] == ls[i] && ls[i..][1..] == ls[i + 1..];
    var rest := Fired(ls[i + 1..], ev);
    assert acc + ([Heard(ls[i], ev)] + rest.notes) == acc + [Heard(ls[i], ev)] + rest.notes;
  }

  /** One more turn of the loop over c's children. */
  lemma ChildrenStep(m: Store, gm: Geos, rank: map<Id, nat>, roots: seq<Id>, h: Holders,
                     ch: Channel, c: Id, k: MouseKind, x: int, y: int, i: nat, acc: seq<Note>)
    requires Tree(m, rank) && c in m && h.In(m) && 0 < i <= |m[c].w.children|
    ensures StepsDown(m, rank, c, m[c].w.children[i - 1])
    ensures var top := Dispatch(m, gm, rank, roots, h, ch, m[c].w.children[i - 1], k, x, y, false);
      Resume(acc, false, Children(m, gm, rank, roots, h, ch, c, k, x, y, i))
      == Resume(acc + top.notes, top.consumed, Children(m, gm, rank, roots, h, ch, c, k, x, y, i - 1))
  {
    assert StepsDown(m, rank, c, m[c].w.children[i - 1]);
    var top := Dispatch(m, gm, rank, roots, h, ch, m[c].w.children[i - 1], k, x, y, false);
    var rest := Children(m, gm, rank, roots, h, ch, c, k, x, y, i - 1);
    assert acc + (top.notes + rest.notes) == acc + top.notes + rest.notes;
  }

  /** One more turn of the loop over the panel's roots. */
  lemma RootsStep(m: Store, gm: Geos, rank: map<Id, nat>, roots: seq<Id>, h: Holders,
                  ch: Channel, k: MouseKind, x: int, y: int, i: nat, acc: seq<Note>)
    requires Tree(m, rank) && h.In(m) && (forall d | d in roots :: d in m) && 0 < i <= |roots|
    ensures var top := Dispatch(m, gm, rank, roots, h, ch, roots[i - 1], k, x, y, false);
      Resume(acc, false, RootsRun(m, gm, rank, roots, h, ch, k, x, y, i))
      == Resume(acc + top.notes, top.consumed, RootsRun(m, gm, rank, roots, h, ch, k, x, y, i - 1))
  {
    var top := Dispatch(m, gm, rank, roots, h, ch, roots[i - 1], k, x, y, false);
    var rest := RootsRun(m, gm, rank, roots, h, ch, k, x, y, i - 1);
    assert acc + (top.notes + rest.notes) == acc + top.notes + rest.notes;
  }

  /** The fire*Event loops on component n's list lk, switched by flag f. */
  method FireInput(s: Scene, n: Node, lk: ListKind, f: Flag, e: InputEvent)
    modifies s`log, e`consumed
    ensures var r := Fire(n, lk, f, e.Snapshot(), old(e.consumed));
      s.log == old(s.log) + r.notes && e.consumed == r.consumed
  {
    if !n.Is(f) || e.consumed {
      return;
    }
    FireLoop(s, n.List(lk), e.Snapshot(), e);
  }

  /** The loop of the fire*Event methods over listeners ls, on event ev
      that is not consumed yet: a listener that consumes it ends the loop. */
  method FireLoop(s: Scene, ls: seq<Listener>, ev: Event, e: InputEvent)
    requires !e.consumed
    modifies s`log, e`consumed
    ensures s.log == old(s.log) + Fired(ls, ev).notes && e.consumed == Fired(ls, ev).consumed
  {
    var i := 0;
    ghost var acc: seq<Note> := [];
    assert ls[0..] == ls;
    while !e.consumed && i < |ls|
      invariant 0 <= i <= |ls| && s.log == old(s.log) + acc
      invariant Fired(ls, ev) == Resume(acc, e.consumed, Fired(ls[i..], ev))
      decreases |ls| - i
    {
      var l := ls[i];
      FiredStep(ls, i, acc, ev);
      s.log := s.log + [Heard(l, ev)];
      acc := acc + [Heard(l, ev)];
      if Consumes(l) {
        e.consumed := true;
      }
      i := i + 1;
    }
    assert !e.consumed ==> ls[i..] == [];
  }

  /** DefaultComponent.processMouseEvent. */
  method ProcessComponentMouse(s: Scene, roots: seq<Id>, c: Id, e: InputEvent)
    requires Walkable(s.nodes, s.rank) && c in s.nodes && e.mouse.Some?
    modifies s`log, e`consumed
    ensures var r := ComponentMouse(s.nodes[c], GeoOf(s.geo, c), IsRootComponent(s.nodes, s.rank, roots, c),
                                    e.mouse.value, e.x, e.y, old(e.consumed));
      s.log == old(s.log) + r.notes && e.consumed == r.consumed
  {
    var n := s.nodes[c];
    if e.consumed || IsRootComponent(s.nodes, s.rank, roots, c) || !Accepts(n, GeoOf(s.geo, c), e.mouse.value, e.x, e.y) {
      return;
    }
    FireInput(s, n, MouseList, MouseNotify, e);
    e.Consume();
  }

  /** DefaultComponent.processMouseWheelEvent. */
  method ProcessComponentWheel(s: Scene, roots: seq<Id>, c: Id, e: InputEvent)
    requires Walkable(s.nodes, s.rank) && c in s.nodes && e.mouse == Some(WheelMoved)
    modifies s`log, e`consumed
    ensures var r := ComponentWheel(s.nodes[c], GeoOf(s.geo, c), IsRootComponent(s.nodes, s.rank, roots, c), e.x, e.y, old(e.consumed));
      s.log == old(s.log) + r.notes && e.consumed == r.consumed
  {
    var n := s.nodes[c];
    if e.consumed || IsRootComponent(s.nodes, s.rank, roots, c) || !ContainsPoint(n, GeoOf(s.geo, c), e.x, e.y) {
      return;
    }
    FireInput(s, n, WheelList, WheelNotify, e);
    e.Consume();
  }

  /** DefaultComponent.processKeyEvent. */
  method ProcessKey(s: Scene, roots: seq<Id>, c: Id, e: InputEvent)
    requires Walkable(s.nodes, s.rank) && c in s.nodes && e.mouse.None?
    modifies s`log, e`consumed
    ensures var r := ComponentKey(s.nodes[c], IsRootComponent(s.nodes, s.rank, roots, c), e.key, e.code, old(e.consumed));
      s.log == old(s.log) + r.notes && e.consumed == r.consumed
  {
    var n := s.nodes[c];
    if e.consumed || !n.Is(Focused) || IsRootComponent(s.nodes, s.rank, roots, c) {
      return;
    }
    FireInput(s, n, KeyList, KeyNotify, e);
    e.Consume();
  }

  /** c.process*Event, the virtual call: the container override or
      DefaultComponent's. The event's point is back where it was. */
  method ProcessEvent(s: Scene, roots: seq<Id>, h: Holders, ch: Channel, c: Id, e: InputEvent)
    requires Tree(s.nodes, s.rank) && c in s.nodes && h.In(s.nodes) && e.mouse.Some?
    requires ch == WheelCh <==> e.mouse == Some(WheelMoved)
    modifies s`log, e`x, e`y, e`consumed
    ensures var r := Dispatch(s.nodes, s.geo, s.rank, roots, h, ch, c, e.mouse.value, old(e.x), old(e.y), old(e.consumed));
      s.log == old(s.log) + r.notes && e.consumed == r.consumed
    ensures e.x == old(e.x) && e.y == old(e.y)
    decreases Phase(ch), s.rank[c], 2, 0
  {
    if IsContainer(s.nodes[c].kind) {
      ProcessContainer(s, roots, h, ch, c, e);
    } else {
      ProcessComponent(s, roots, h, ch, c, e);
    }
  }

  /** DefaultComponent's process*Event, for channel ch. */
  method ProcessComponent(s: Scene, roots: seq<Id>, h: Holders, ch: Channel, c: Id, e: InputEvent)
    requires Tree(s.nodes, s.rank) && c in s.nodes && h.In(s.nodes) && e.mouse.Some?
    requires ch == WheelCh <==> e.mouse == Some(WheelMoved)
    modifies s`log, e`consumed
    ensures var r := Handle(s.nodes, s.geo, s.rank, roots, h, ch, c, e.mouse.value, e.x, e.y, old(e.consumed));
      s.log == old(s.log) + r.notes && e.consumed == r.consumed
    decreases Phase(ch), s.rank[c], 0, 1
  {
    match ch {
      case MouseCh => ProcessComponentMouse(s, roots, c, e);
      case WheelCh => ProcessComponentWheel(s, roots, c, e);
      case MotionCh => ProcessMotion(s, roots, h, c, e);
    }
  }

  /** DefaultComponent.processMouseMotionEvent; the MOUSE_EXITED and
      MOUSE_ENTERED events it creates are new event objects at the same
      point. */
  method ProcessMotion(s: Scene, roots: seq<Id>, h: Holders, c: Id, e: InputEvent)
    requires Tree(s.nodes, s.rank) && c in s.nodes && h.In(s.nodes) && e.mouse.Some?
    modifies s`log, e`consumed
    ensures var r := ComponentMotion(s.nodes, s.geo, s.rank, roots, h, c, e.mouse.value, e.x, e.y, old(e.consumed));
      s.log == old(s.log) + r.notes && e.consumed == r.consumed
    decreases Phase(MotionCh), s.rank[c], 0, 0, 1
  {
    var n, g := s.nodes[c], GeoOf(s.geo, c);
    if e.consumed || IsRootComponent(s.nodes, s.rank, roots, c) {
      return;
    }
    var k := e.mouse.value;
    if k == Moved {
      if ContainsPoint(n, g, e.x, e.y) {
        if n.Is(MouseOver) {
          FireInput(s, n, MotionList, MotionNotify, e);
        } else {
          Reenter(s, roots, h, c, e.x, e.y);
        }
        e.Consume();
      } else if n.Is(MouseOver) {
        var exited := new InputEvent.Mouse(Exited, e.x, e.y);
        ProcessEvent(s, roots, h, MouseCh, c, exited);
        e.Consume();
      }
    } else if k == Dragged && n.Is(MousePressed) {
      FireInput(s, n, MotionList, MotionNotify, e);
      e.Consume();
    }
  }

  /** The move of the mouse into c, which was not under it: the moused-over
      component of the panel state gets a MOUSE_EXITED when c reaches the
      panel, then c gets a MOUSE_ENTERED, both at (x, y). */
  method Reenter(s: Scene, roots: seq<Id>, h: Holders, c: Id, x: int, y: int)
    requires Tree(s.nodes, s.rank) && c in s.nodes && h.In(s.nodes)
    modifies s`log
    ensures s.log == old(s.log)
      + (if PanelOf(s.nodes, s.rank, c) && h.over.Some?
         then Dispatch(s.nodes, s.geo, s.rank, roots, h, MouseCh, h.over.value, Exited, x, y, false).notes
         else [])
      + Dispatch(s.nodes, s.geo, s.rank, roots, h, MouseCh, c, Entered, x, y, false).notes
    decreases Phase(MotionCh), s.rank[c], 0, 0, 0
  {
    if PanelOf(s.nodes, s.rank, c) && h.over.Some? {
      var exited := new InputEvent.Mouse(Exited, x, y);
      ProcessEvent(s, roots, h, MouseCh, h.over.value, exited);
    }
    var entered := new InputEvent.Mouse(Entered, x, y);
    ProcessEvent(s, roots, h, MouseCh, c, entered);
  }

  /** DefaultContainerComponent's process*Event on container c. */
  method ProcessContainer(s: Scene, roots: seq<Id>, h: Holders, ch: Channel, c: Id, e: InputEvent)
    requires Tree(s.nodes, s.rank) && c in s.nodes && h.In(s.nodes) && e.mouse.Some?
    requires ch == WheelCh <==> e.mouse == Some(WheelMoved)
    modifies s`log, e`x, e`y, e`consumed
    ensures var r := ContainerDispatch(s.nodes, s.geo, s.rank, roots, h, ch, c, e.mouse.value, old(e.x), old(e.y), old(e.consumed));
      s.log == old(s.log) + r.notes && e.consumed == r.consumed
    ensures e.x == old(e.x) && e.y == old(e.y)
    decreases Phase(ch), s.rank[c], 1, 0
  {
    if e.consumed || !LetsIn(s.nodes[c], GeoOf(s.geo, c), ch, e.mouse.value, e.x, e.y) {
      return;
    }
    var b := BoundsOf(s.geo, c);
    ghost var m, gm, rk := s.nodes, s.geo, s.rank;
    ghost var k, x0, y0, l0 := e.mouse.value, e.x, e.y, s.log;
    ghost var kids := Children(m, gm, rk, roots, h, ch, c, k, x0 - b.x, y0 - b.y, |m[c].w.children|);
    ghost var own := Handle(m, gm, rk, roots, h, ch, c, k, x0, y0, false);
    ghost var r := ContainerDispatch(m, gm, rk, roots, h, ch, c, k, x0, y0, false);
    ContainerSplit(m, gm, rk, roots, h, ch, c, k, x0, y0);
    e.Translate(-b.x, -b.y);
    ProcessChildren(s, roots, h, ch, c, e);
    assert s.log == l0 + kids.notes && e.consumed == kids.consumed;
    e.Translate(b.x, b.y);
    if e.consumed || IsRootComponent(s.nodes, s.rank, roots, c) {
      assert r == kids;
    } else {
      ProcessComponent(s, roots, h, ch, c, e);
      AppendAssoc(l0, kids.notes, own.notes);
      assert r == Run(kids.notes + own.notes, own.consumed);
    }
  }

  /** A container that lets the event in runs its children on the translated
      point, then its own handling unless a child consumed the event or the
      container is a root. */
  lemma ContainerSplit(m: Store, gm: Geos, rank: map<Id, nat>, roots: seq<Id>, h: Holders,
                       ch: Channel, c: Id, k: MouseKind, x: int, y: int)
    requires Tree(m, rank) && c in m && h.In(m) && LetsIn(m[c], GeoOf(gm, c), ch, k, x, y)
    ensures var b := BoundsOf(gm, c);
      var kids := Children(m, gm, rank, roots, h, ch, c, k, x - b.x, y - b.y, |m[c].w.children|);
      var own := Handle(m, gm, rank, roots, h, ch, c, k, x, y, false);
      ContainerDispatch(m, gm, rank, roots, h, ch, c, k, x, y, false)
        == if kids.consumed || IsRootComponent(m, rank, roots, c) then kids else Run(kids.notes + own.notes, own.consumed)
  {
  }

  /** The loop `for (i = getComponentCount() - 1; !evt.isConsumed() && i > -1; i--)`
      of the container overrides, on an event not consumed yet. */
  method ProcessChildren(s: Scene, roots: seq<Id>, h: Holders, ch: Channel, c: Id, e: InputEvent)
    requires Tree(s.nodes, s.rank) && c in s.nodes && h.In(s.nodes) && e.mouse.Some? && !e.consumed
    requires ch == WheelCh <==> e.mouse == Some(WheelMoved)
    modifies s`log, e`x, e`y, e`consumed
    ensures var r := Children(s.nodes, s.geo, s.rank, roots, h, ch, c, e.mouse.value, old(e.x), old(e.y), |s.nodes[c].w.children|);
      s.log == old(s.log) + r.notes && e.consumed == r.consumed
    ensures e.x == old(e.x) && e.y == old(e.y)
    decreases Phase(ch), s.rank[c], 0, |s.nodes[c].w.children| + 1
  {
    var k := e.mouse.value;
    var kids := s.nodes[c].w.children;
    var i := |kids|;
    ghost var acc: seq<Note> := [];
    ghost var whole := Children(s.nodes, s.geo, s.rank, roots, h, ch, c, k, e.x, e.y, |kids|);
    while !e.consumed && i > 0
      invariant 0 <= i <= |kids| && e.x == old(e.x) && e.y == old(e.y)
      invariant s.log == old(s.log) + acc
      invariant whole == Resume(acc, e.consumed, Children(s.nodes, s.geo, s.rank, roots, h, ch, c, k, e.x, e.y, i))
      decreases i
    {
      ChildrenStep(s.nodes, s.geo, s.rank, roots, h, ch, c, k, e.x, e.y, i, acc);
      var d := kids[i - 1];
      ghost var top := Dispatch(s.nodes, s.geo, s.rank, roots, h, ch, d, k, e.x, e.y, false);
      ProcessEvent(s, roots, h, ch, d, e);
      acc := acc + top.notes;
      i := i - 1;
    }
  }

  /** ComponentPanel's process(Mouse|MouseMotion|MouseWheel)Event, after
      the Swing part: the roots from the last to the first while the event
      is not consumed. */
  method ProcessPanel(p: ComponentPanel, ch: Channel, e: InputEvent)
    requires p.Valid() && e.mouse.Some? && (ch == WheelCh <==> e.mouse == Some(WheelMoved))
    modifies p.scene`log, e`x, e`y, e`consumed
    ensures var r := PanelDispatch(p.scene.nodes, p.scene.geo, p.scene.rank, p.roots, p.state.Snapshot(), ch,
                                   e.mouse.value, e.x, e.y, old(e.consumed));
      p.scene.log == old(p.scene.log) + r.notes && e.consumed == r.consumed
    ensures e.x == old(e.x) && e.y == old(e.y)
  {
    if e.consumed {
      return;
    }
    ProcessRoots(p.scene, p.roots, p.state.Snapshot(), ch, e);
  }

  /** The loop over the roots, on an event not consumed yet. */
  method ProcessRoots(s: Scene, roots: seq<Id>, h: Holders, ch: Channel, e: InputEvent)
    requires Tree(s.nodes, s.rank) && h.In(s.nodes) && (forall d | d in roots :: d in s.nodes)
    requires e.mouse.Some? && !e.consumed && (ch == WheelCh <==> e.mouse == Some(WheelMoved))
    modifies s`log, e`x, e`y, e`consumed
    ensures var r := RootsRun(s.nodes, s.geo, s.rank, roots, h, ch, e.mouse.value, old(e.x), old(e.y), |roots|);
      s.log == old(s.log) + r.notes && e.consumed == r.consumed
    ensures e.x == old(e.x) && e.y == old(e.y)
  {
    var k := e.mouse.value;
    var i := |roots|;
    ghost var acc: seq<Note> := [];
    ghost var whole := RootsRun(s.nodes, s.geo, s.rank, roots, h, ch, k, e.x, e.y, |roots|);
    while !e.consumed && i > 0
      invariant 0 <= i <= |roots| && e.x == old(e.x) && e.y == old(e.y)
      invariant s.log == old(s.log) + acc
      invariant whole == Resume(acc, e.consumed, RootsRun(s.nodes, s.geo, s.rank, roots, h, ch, k, e.x, e.y, i))
      decreases i
    {
      RootsStep(s.nodes, s.geo, s.rank, roots, h, ch, k, e.x, e.y, i, acc);
      var d := roots[i - 1];
      ghost var top := Dispatch(s.nodes, s.geo, s.rank, roots, h, ch, d, k, e.x, e.y, false);
      ProcessEvent(s, roots, h, ch, d, e);
      acc := acc + top.notes;
      i := i - 1;
    }
  }

  /** ComponentPanel.processKeyEvent, after the Swing part. */
  method ProcessPanelKey(p: ComponentPanel, e: InputEvent)
    requires p.Valid() && e.mouse.None?
    modifies p.scene`log, e`consumed
    ensures var r := PanelKey(p.scene.nodes, p.scene.rank, p.roots, p.state.Snapshot(), e.key, e.code, old(e.consumed));
      p.scene.log == old(p.scene.log) + r.notes && e.consumed == r.consumed
  {
    var f := p.state.focused;
    if f.Some? {
      ProcessKey(p.scene, p.roots, f.value, e);
    }
  }
}
