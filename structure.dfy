/**
 * The component tree: addComponent and removeComponent of
 * AbstractContainerComponent and DefaultAdjustableComponent, the parent
 * guards of setParentComponent (AbstractComponent, DefaultContainerComponent,
 * RootComponent, AbstractHandle), setComponentPanel, and the container's own
 * setters.
 */
module Structure {
  import opened Outcomes
  import opened Seqs
  import opened Geometry
  import opened Nodes
  import opened Graph
  import opened Walks
  import opened Panels
  import opened Validation
  import opened Resizing
  import opened Layouts
  import opened Connections

  // ---------------------------------------------------------------------------
  // The parent guards.

  /** The exception c.setParentComponent(p) throws, as the classes write it:
      a RootComponent refuses every parent but null, an AbstractHandle every
      parent that is not an AdjustableComponent (null included), and a
      DefaultContainerComponent a new parent that is one of its descendants. */
  function ParentRefusalAsWritten(g: Shapes, ghost rank: map<Id, nat>, c: Id, p: Option<Id>): Option<Exc>
    requires Closed(g) && Ranked(g, rank) && c in g
    requires p.Some? ==> p.value in g && ParentChild(g)
  {
    var k := g[c].kind;
    if k.Root? then (if p.None? then None else Some(UnsupportedOperation))
    else if k.Handle? then (if p.None? || !g[p.value].kind.Adjustable? then Some(IllegalArgument) else None)
    else if IsContainer(k) && g[c].w.parent != p && p.Some? && IsDescendantOf(g, rank, Some(c), p) then Some(IllegalArgument)
    else None
  }

  /** The guards as they are meant: a handle may lose its parent, and no
      container may become its own parent. */
  function ParentRefusal(g: Shapes, ghost rank: map<Id, nat>, c: Id, p: Option<Id>): Option<Exc>
    requires Closed(g) && Ranked(g, rank) && c in g
    requires p.Some? ==> p.value in g && ParentChild(g)
  {
    var k := g[c].kind;
    if k.Handle? && p.None? then None
    else if IsContainer(k) && !k.Root? && p == Some(c) then Some(IllegalArgument)
    else ParentRefusalAsWritten(g, rank, c, p)
  }

  /** What the tree allows of c taking x as its parent: c is not a root, a
      handle goes only into an adjustable component, and x is not on c's own
      subtree. */
  ghost predicate MayAdopt(g: Shapes, rank: map<Id, nat>, c: Id, x: Id)
    requires Closed(g) && Ranked(g, rank) && c in g && x in g
  {
    !g[c].kind.Root? && (g[c].kind.Handle? ==> g[x].kind.Adjustable?) && !AncestorOrSelf(g, rank, x, c)
  }

  /** For a parentless component and a container, the guards refuse exactly
      what would break the tree: a root, a handle outside an adjustable
      component, and a parent on the component's own subtree. */
  lemma ParentRefusalSpec(g: Shapes, rank: map<Id, nat>, c: Id, x: Id)
    requires ValidShape(g, rank) && c in g && x in g && g[c].w.parent.None? && IsContainer(g[x].kind)
    ensures ParentRefusal(g, rank, c, Some(x)).None? <==> MayAdopt(g, rank, c, x)
    ensures g[c].kind.Root? ==> ParentRefusal(g, rank, c, Some(x)) == Some(UnsupportedOperation)
    ensures !g[c].kind.Root? && ParentRefusal(g, rank, c, Some(x)).Some? ==> ParentRefusal(g, rank, c, Some(x)) == Some(IllegalArgument)
  {
    AncestorOrSelfIff(g, rank, x, c);
    AncestorIffDescendant(g, rank, Some(c), Some(x));
  }

  /** As written, the cycle guard lets a parentless container take itself as
      its parent, and then no ranking exists: the parent chain never ends. */
  lemma SelfParentAsWritten(g: Shapes, rank: map<Id, nat>, c: Id)
    requires ValidShape(g, rank) && c in g && g[c].w.parent.None? && IsContainer(g[c].kind) && !g[c].kind.Root?
    ensures ParentRefusalAsWritten(g, rank, c, Some(c)).None?
    ensures ParentRefusal(g, rank, c, Some(c)) == Some(IllegalArgument)
    ensures forall r :: !Ranked(Rewire(g, c, g[c].w.(parent := Some(c))), r)
  {
    NotOwnDescendant(g, rank, c);
    var g' := Rewire(g, c, g[c].w.(parent := Some(c)));
    forall r ensures !Ranked(g', r) {
      assert c in g' && g'[c].w.parent == Some(c);
    }
  }

  /** As written, removeComponent on a handle has already taken it out of the
      list when setParentComponent(null) throws, so the handle is left with a
      parent that no longer lists it. */
  lemma HandleOrphanAsWritten(g: Shapes, rank: map<Id, nat>, x: Id, i: nat)
    requires ValidShape(g, rank) && x in g && i < |g[x].w.children| && g[x].w.children[i] in g
    requires g[g[x].w.children[i]].kind.Handle?
    ensures ParentRefusalAsWritten(g, rank, g[x].w.children[i], None) == Some(IllegalArgument)
    ensures ParentRefusal(g, rank, g[x].w.children[i], None).None?
    ensures !ParentChild(Rewire(g, x, g[x].w.(children := RemoveAt(g[x].w.children, i))))
  {
    var c := g[x].w.children[i];
    RemoveChildStep(g, rank, x, i);
    var g' := Rewire(g, x, g[x].w.(children := RemoveAt(g[x].w.children, i)));
    assert Par(g', c) == Some(x) && c !in Kids(g', x);
  }

  // ---------------------------------------------------------------------------
  // The effect on the store.

  /** The store with c's parent field set to p. */
  function WithParent(m: Store, c: Id, p: Option<Id>): (r: Store)
    requires c in m
    ensures r.Keys == m.Keys
  {
    SetW(m, c, m[c].w.(parent := p))
  }

  /** The store with x's child list replaced by l. */
  function WithChildren(m: Store, x: Id, l: seq<Id>): (r: Store)
    requires x in m
    ensures r.Keys == m.Keys
  {
    SetW(m, x, m[x].w.(children := l))
  }

  /** The store with c's componentPanel field set (b) or null (!b). */
  function WithPanel(m: Store, c: Id, b: bool): (r: Store)
    requires c in m
    ensures r.Keys == m.Keys
  {
    m[c := m[c].(a := m[c].a.(panel := b))]
  }

  /** The store with c's componentPanel field cleared. */
  function WithoutPanel(m: Store, c: Id): (r: Store)
    requires c in m
    ensures r.Keys == m.Keys
  {
    WithPanel(m, c, false)
  }

  /** The store with x's containerLayout field set to l. */
  function WithLayout(m: Store, x: Id, l: Option<Layout>): (r: Store)
    requires x in m
    ensures r.Keys == m.Keys
  {
    m[x := m[x].(a := m[x].a.(layout := l))]
  }

  /** The store with x's handle list replaced by hs. */
  function WithHandles(m: Store, x: Id, hs: seq<Id>): (r: Store)
    requires x in m
    ensures r.Keys == m.Keys
  {
    m[x := m[x].(a := m[x].a.(handles := hs))]
  }

  /** Whether DefaultAdjustableComponent's bookkeeping applies: x keeps a
      handle list and c is a handle. */
  predicate Tracks(m: Store, x: Id, c: Id)
    requires x in m && c in m
  {
    m[x].kind.Adjustable? && m[c].kind.Handle?
  }

  /** `handleList.add(c)` when x tracks c. */
  function NoteHandle(m: Store, x: Id, c: Id): (r: Store)
    requires x in m && c in m
    ensures r.Keys == m.Keys
  {
    if Tracks(m, x, c) then WithHandles(m, x, m[x].a.handles + [c]) else m
  }

  /** `handleList.remove(c)` when x tracks c. */
  function DropHandle(m: Store, x: Id, c: Id): (r: Store)
    requires x in m && c in m
    ensures r.Keys == m.Keys
  {
    if Tracks(m, x, c) then WithHandles(m, x, Remove(m[x].a.handles, c)) else m
  }

  /** What AbstractContainerComponent.removeComponent(i) does to the store:
      the entry leaves x's list and loses its parent. */
  function Unlinked(m: Store, x: Id, i: nat): (r: Store)
    requires x in m && i < |m[x].w.children| && m[x].w.children[i] in m
    ensures r.Keys == m.Keys
  {
    WithParent(WithChildren(m, x, RemoveAt(m[x].w.children, i)), m[x].w.children[i], None)
  }

  /** x.removeComponent(i) with DefaultAdjustableComponent's part: a handle
      also leaves the handle list. */
  function Removal(m: Store, x: Id, i: nat): (r: Store)
    requires x in m && i < |m[x].w.children| && m[x].w.children[i] in m
    ensures r.Keys == m.Keys
  {
    DropHandle(Unlinked(m, x, i), x, m[x].w.children[i])
  }

  /** What addComponent's call on the old parent does: a listed child leaves
      the list of its parent. */
  function Detached(m: Store, c: Id): (r: Store)
    requires c in m
    ensures r.Keys == m.Keys
  {
    var q := m[c].w.parent;
    if q.Some? && q.value in m && c in m[q.value].w.children && m[q.value].w.children[IndexOf(m[q.value].w.children, c)] in m
    then Removal(m, q.value, IndexOf(m[q.value].w.children, c))
    else m
  }

  /** What AbstractContainerComponent.addComponent(i, c) does to the store
      once c has no parent: c takes x as its parent, loses any panel field,
      and enters x's list at i. */
  function Adopted(m: Store, x: Id, i: nat, c: Id): (r: Store)
    requires x in m && c in m && i <= |m[x].w.children|
    ensures r.Keys == m.Keys
  {
    WithChildren(WithoutPanel(WithParent(m, c, Some(x)), c), x, InsertAt(m[x].w.children, i, c))
  }

  /** x.addComponent(i, c) with DefaultAdjustableComponent's part: a handle
      also enters the handle list. */
  function Addition(m: Store, x: Id, i: nat, c: Id): (r: Store)
    requires x in m && c in m && i <= |m[x].w.children|
    ensures r.Keys == m.Keys
  {
    NoteHandle(Adopted(m, x, i, c), x, c)
  }

  // ---------------------------------------------------------------------------
  // The effect keeps the invariant.

  /** The stores hold the same components, of the same classes, with the
      same attribute references. */
  predicate SameRefs(m: Store, m': Store) {
    m'.Keys == m.Keys
    && forall d | d in m :: m'[d].kind == m[d].kind && m'[d].a.handles == m[d].a.handles && m'[d].a.shadow == m[d].a.shadow
  }

  lemma AttrRefsKept(m: Store, m': Store)
    requires AttrRefsOk(m) && SameRefs(m, m')
    ensures AttrRefsOk(m') && KindsKept(m, m')
  {
    forall c, h | c in m' && h in m'[c].a.handles ensures h in m' && m'[h].kind.Handle? {
      assert h in m[c].a.handles;
    }
    forall c | c in m' ensures ShadowOk(m', m'[c].a.shadow) {
      assert m[c].a.shadow == m'[c].a.shadow && ShadowOk(m, m[c].a.shadow);
      if m[c].a.shadow.Some? {
        var sh := m[c].a.shadow.value;
        assert sh in m;
        assert m'[sh].kind == m[sh].kind;
      }
    }
  }

  lemma SameRefsTrans(m0: Store, m1: Store, m2: Store)
    requires SameRefs(m0, m1) && SameRefs(m1, m2)
    ensures SameRefs(m0, m2)
  {
  }

  /** New links for c keep the attributes. */
  lemma SetWRefs(m: Store, c: Id, w: Wiring)
    requires c in m
    ensures SameRefs(m, SetW(m, c, w))
  {
  }

  /** Setting a panel field keeps the links and the attribute references. */
  lemma WithPanelKeeps(m: Store, c: Id, b: bool)
    requires c in m
    ensures ShapeOf(WithPanel(m, c, b)) == ShapeOf(m) && SameRefs(m, WithPanel(m, c, b))
    ensures m[c].a.panel == b ==> WithPanel(m, c, b) == m
  {
    ShapeOfUpdate(m, c, m[c].(a := m[c].a.(panel := b)));
  }

  /** Clearing a panel field keeps the links and the attribute references. */
  lemma WithoutPanelKeeps(m: Store, c: Id)
    requires c in m
    ensures ShapeOf(WithoutPanel(m, c)) == ShapeOf(m) && SameRefs(m, WithoutPanel(m, c))
    ensures !m[c].a.panel ==> WithoutPanel(m, c) == m
  {
    WithPanelKeeps(m, c, false);
  }

  /** Adding a handle to a handle list keeps the links and the validity of
      the attribute references. */
  lemma NoteHandleKeeps(m: Store, x: Id, c: Id)
    requires AttrRefsOk(m) && x in m && c in m
    ensures ShapeOf(NoteHandle(m, x, c)) == ShapeOf(m) && AttrRefsOk(NoteHandle(m, x, c)) && KindsKept(m, NoteHandle(m, x, c))
  {
    if Tracks(m, x, c) {
      var hs := m[x].a.handles;
      ShapeOfUpdate(m, x, m[x].(a := m[x].a.(handles := hs + [c])));
      var m1 := NoteHandle(m, x, c);
      forall y, h | y in m1 && h in m1[y].a.handles ensures h in m1 && m1[h].kind.Handle? {
        if y == x && h !in hs { assert h == c; } else { assert h in m[y].a.handles; }
      }
      assert forall y | y in m1 :: m1[y].a.shadow == m[y].a.shadow && m1[y].kind == m[y].kind;
    }
  }

  /** Removing an entry from a handle list keeps the links and the validity
      of the attribute references. */
  lemma DropHandleKeeps(m: Store, x: Id, c: Id)
    requires AttrRefsOk(m) && x in m && c in m
    ensures ShapeOf(DropHandle(m, x, c)) == ShapeOf(m) && AttrRefsOk(DropHandle(m, x, c)) && KindsKept(m, DropHandle(m, x, c))
  {
    if Tracks(m, x, c) {
      var hs := m[x].a.handles;
      ShapeOfUpdate(m, x, m[x].(a := m[x].a.(handles := Remove(hs, c))));
      var m2 := DropHandle(m, x, c);
      forall y, h | y in m2 && h in m2[y].a.handles ensures h in m2 && m2[h].kind.Handle? {
        if y == x { RemoveSubset(hs, c, h); }
        assert h in m[y].a.handles;
      }
      assert forall y | y in m2 :: m2[y].a.shadow == m[y].a.shadow && m2[y].kind == m[y].kind;
    }
  }

  /** The shape of a store after SetW, and the shape entry of a component. */
  lemma ShapeAt(m: Store, c: Id)
    requires c in m
    ensures ShapeOf(m)[c] == Shape(m[c].kind, m[c].w)
  {
  }

  /** A child has its lister as its parent, and a parent lists the child. */
  lemma ParentLists(m: Store, rank: map<Id, nat>, c: Id)
    requires ValidShape(ShapeOf(m), rank) && c in m && m[c].w.parent.Some?
    ensures m[c].w.parent.value in m && c in m[m[c].w.parent.value].w.children
    ensures IsContainer(m[m[c].w.parent.value].kind)
    ensures m[m[c].w.parent.value].w.children[IndexOf(m[m[c].w.parent.value].w.children, c)] in m
  {
    var g := ShapeOf(m);
    ShapeAt(m, c);
    var q := m[c].w.parent.value;
    assert RefsIn(g[c].w, g.Keys);
    ShapeAt(m, q);
    assert Par(g, c) == Some(q);
    assert c in Kids(g, q);
    assert KindOk(g, q);
  }

  /** Taking entry i out of x's list and clearing its parent keeps the tree
      valid under the same ranks. */
  lemma UnlinkedShape(m: Store, rank: map<Id, nat>, x: Id, i: nat)
    requires ValidShape(ShapeOf(m), rank) && x in m && i < |m[x].w.children|
    ensures m[x].w.children[i] in m && m[x].w.children[i] != x
    ensures m[m[x].w.children[i]].w.parent == Some(x)
    ensures ValidShape(ShapeOf(Unlinked(m, x, i)), rank) && SameRefs(m, Unlinked(m, x, i))
  {
    var g := ShapeOf(m);
    var ch := m[x].w.children;
    ShapeAt(m, x);
    RemoveChildStep(g, rank, x, i);
    var c := ch[i];
    ShapeAt(m, c);
    var m1 := WithChildren(m, x, RemoveAt(ch, i));
    ShapeOfSetW(m, x, m[x].w.(children := RemoveAt(ch, i)));
    SetWRefs(m, x, m[x].w.(children := RemoveAt(ch, i)));
    var g1 := ShapeOf(m1);
    ShapeAt(m1, c);
    ClearParentStep(g1, rank, c);
    ShapeOfSetW(m1, c, m1[c].w.(parent := None));
    SetWRefs(m1, c, m1[c].w.(parent := None));
    SameRefsTrans(m, m1, Unlinked(m, x, i));
  }

  /** Removal keeps the scene invariant, with the same ranks. */
  lemma RemovalShape(m: Store, rank: map<Id, nat>, x: Id, i: nat)
    requires ValidShape(ShapeOf(m), rank) && AttrRefsOk(m) && x in m && i < |m[x].w.children|
    ensures m[x].w.children[i] in m
    ensures ValidShape(ShapeOf(Removal(m, x, i)), rank) && AttrRefsOk(Removal(m, x, i)) && KindsKept(m, Removal(m, x, i))
    ensures Removal(m, x, i)[m[x].w.children[i]].w.parent.None?
  {
    UnlinkedShape(m, rank, x, i);
    var m1 := Unlinked(m, x, i);
    AttrRefsKept(m, m1);
    DropHandleKeeps(m1, x, m[x].w.children[i]);
    KindsKeptTrans(m, m1, Removal(m, x, i));
  }

  /** Detaching keeps the scene invariant with the same ranks, leaves c
      without a parent, and leaves every list that does not hold c alone. */
  lemma DetachedShape(m: Store, rank: map<Id, nat>, c: Id)
    requires ValidShape(ShapeOf(m), rank) && AttrRefsOk(m) && c in m
    ensures ValidShape(ShapeOf(Detached(m, c)), rank) && AttrRefsOk(Detached(m, c)) && KindsKept(m, Detached(m, c))
    ensures Detached(m, c)[c].w.parent.None?
  {
    if m[c].w.parent.Some? {
      ParentLists(m, rank, c);
      var q := m[c].w.parent.value;
      var i := IndexOf(m[q].w.children, c);
      RemovalShape(m, rank, q, i);
      assert Detached(m, c) == Removal(m, q, i);
    }
  }

  /** Taking x as parent, for a c the guards let through, leaves the tree
      pending at c once x's chain is re-ranked. */
  lemma AttachStep(m: Store, rank: map<Id, nat>, c: Id, x: Id)
    requires ValidShape(ShapeOf(m), rank) && c in m && x in m && m[c].w.parent.None? && IsContainer(m[x].kind)
    requires MayAdopt(ShapeOf(m), rank, c, x)
    ensures x != c && c in rank
    ensures Pending(ShapeOf(WithParent(m, c, Some(x))), Bump(ShapeOf(m), rank, x, rank[c] + 1), c)
    ensures SameRefs(m, WithParent(m, c, Some(x)))
  {
    var g := ShapeOf(m);
    ShapeAt(m, c);
    ShapeAt(m, x);
    assert AncestorOrSelf(g, rank, x, x);
    SetParentStep(g, rank, c, x);
    ShapeOfSetW(m, c, m[c].w.(parent := Some(x)));
    SetWRefs(m, c, m[c].w.(parent := Some(x)));
  }

  /** Entering the list of its parent ends the pending state. */
  lemma ListStep(m: Store, rank: map<Id, nat>, c: Id, x: Id, i: nat)
    requires Pending(ShapeOf(m), rank, c) && x in m && m[c].w.parent == Some(x) && IsContainer(m[x].kind)
    requires i <= |m[x].w.children|
    ensures ValidShape(ShapeOf(WithChildren(m, x, InsertAt(m[x].w.children, i, c))), rank)
    ensures SameRefs(m, WithChildren(m, x, InsertAt(m[x].w.children, i, c)))
  {
    var g := ShapeOf(m);
    ShapeAt(m, c);
    ShapeAt(m, x);
    InsertChildStep(g, rank, c, x, i);
    ShapeOfSetW(m, x, m[x].w.(children := InsertAt(m[x].w.children, i, c)));
    SetWRefs(m, x, m[x].w.(children := InsertAt(m[x].w.children, i, c)));
  }

  /** Adding a component the guards let through keeps the scene invariant
      under some ranking. */
  lemma AdditionShape(m: Store, rank: map<Id, nat>, x: Id, i: nat, c: Id) returns (rank': map<Id, nat>)
    requires ValidShape(ShapeOf(m), rank) && AttrRefsOk(m) && c in m && x in m
    requires m[c].w.parent.None? && IsContainer(m[x].kind) && i <= |m[x].w.children|
    requires MayAdopt(ShapeOf(m), rank, c, x)
    ensures ValidShape(ShapeOf(Addition(m, x, i, c)), rank') && AttrRefsOk(Addition(m, x, i, c)) && KindsKept(m, Addition(m, x, i, c))
  {
    AttachStep(m, rank, c, x);
    rank' := Bump(ShapeOf(m), rank, x, rank[c] + 1);
    var m1 := WithParent(m, c, Some(x));
    var m2 := WithoutPanel(m1, c);
    WithoutPanelKeeps(m1, c);
    assert m2[x].w.children == m[x].w.children;
    ListStep(m2, rank', c, x, i);
    var m3 := Adopted(m, x, i, c);
    SameRefsTrans(m, m1, m2);
    SameRefsTrans(m, m2, m3);
    AttrRefsKept(m, m3);
    NoteHandleKeeps(m3, x, c);
    KindsKeptTrans(m, m3, Addition(m, x, i, c));
  }

  /** After an add, c sits in x's list at i and has x as its parent, no
      other component's parent changes, and x's list is otherwise as before. */
  lemma AdditionLinks(m: Store, x: Id, i: nat, c: Id)
    requires x in m && c in m && x != c && i <= |m[x].w.children|
    ensures Addition(m, x, i, c)[x].w.children == InsertAt(m[x].w.children, i, c)
    ensures Addition(m, x, i, c)[c].w.parent == Some(x) && !Addition(m, x, i, c)[c].a.panel
    ensures forall y | y in m && y != c :: Addition(m, x, i, c)[y].w.parent == m[y].w.parent
    ensures forall y | y in m && y != x :: Addition(m, x, i, c)[y].w.children == m[y].w.children
  {
  }

  /** Removing what was just added at the same index restores the store,
      but for the cleared panel field. */
  lemma RemoveUndoesAdd(m: Store, x: Id, i: nat, c: Id)
    requires x in m && c in m && x != c && i <= |m[x].w.children|
    requires m[c].w.parent.None? && (Tracks(m, x, c) ==> c !in m[x].a.handles)
    ensures Addition(m, x, i, c)[x].w.children[i] == c
    ensures Removal(Addition(m, x, i, c), x, i) == WithoutPanel(m, c)
  {
    var ch := m[x].w.children;
    var m' := Addition(m, x, i, c);
    assert m'[x].w.children == InsertAt(ch, i, c);
    assert RemoveAt(InsertAt(ch, i, c), i) == ch;
    if Tracks(m, x, c) {
      var hs := m[x].a.handles;
      assert IndexOf(hs + [c], c) == |hs| by {
        assert (hs + [c])[|hs|] == c && (hs + [c])[..|hs|] == hs;
      }
      assert Remove(hs + [c], c) == hs;
    }
    var r := Removal(m', x, i);
    var w := WithoutPanel(m, c);
    forall y | y in m ensures r[y] == w[y] {
      if y == x {
        assert r[x].w == m[x].w && r[x].a == m[x].a;
      } else if y == c {
        assert r[c].w == m[c].w;
      }
    }
  }

  /** As written, addComponent only detaches a child that is itself a
      container: any other child keeps its place in its old parent's list
      while it joins the new one, so two lists hold it. */
  lemma KeepsOldListingAsWritten(m: Store, rank: map<Id, nat>, c: Id, x: Id, i: nat)
    requires ValidShape(ShapeOf(m), rank) && c in m && x in m && !IsContainer(m[c].kind) && IsContainer(m[x].kind)
    requires m[c].w.parent.Some? && m[c].w.parent != Some(x) && i <= |m[x].w.children|
    ensures !ParentChild(ShapeOf(WithChildren(WithParent(m, c, Some(x)), x, InsertAt(m[x].w.children, i, c))))
  {
    ParentLists(m, rank, c);
    var q := m[c].w.parent.value;
    var m' := WithChildren(WithParent(m, c, Some(x)), x, InsertAt(m[x].w.children, i, c));
    var g' := ShapeOf(m');
    InsertAtMembers(m[x].w.children, i, c, c);
    assert x != c && q != c && q != x;
    ShapeAt(m', c);
    ShapeAt(m', q);
    ShapeAt(m', x);
    assert c in Kids(g', q) && c in Kids(g', x) && Par(g', c) == Some(x);
  }

  /** As written, addComponent checks the index only when it inserts, after
      c has taken x as its parent: an index past the end throws and leaves c
      with a parent that does not list it. */
  lemma LateIndexAsWritten(m: Store, rank: map<Id, nat>, c: Id, x: Id)
    requires ValidShape(ShapeOf(m), rank) && c in m && x in m && m[c].w.parent.None? && c != x
    ensures !ParentChild(ShapeOf(WithoutPanel(WithParent(m, c, Some(x)), c)))
  {
    var g := ShapeOf(m);
    ShapeAt(m, x);
    assert c !in Kids(g, x) by {
      ShapeAt(m, c);
      assert Par(g, c) == None;
    }
    var m' := WithoutPanel(WithParent(m, c, Some(x)), c);
    ShapeAt(m', c);
    ShapeAt(m', x);
    assert Par(ShapeOf(m'), c) == Some(x) && c !in Kids(ShapeOf(m'), x);
  }

  /** Detaching c leaves alone every list that does not hold c. */
  lemma DetachedKeepsOthers(m: Store, rank: map<Id, nat>, c: Id, y: Id)
    requires ValidShape(ShapeOf(m), rank) && c in m && y in m && c !in m[y].w.children
    ensures Detached(m, c)[y].w.children == m[y].w.children
  {
    if m[c].w.parent.Some? {
      ParentLists(m, rank, c);
    }
  }

  /** A listed child is not its own lister. */
  lemma ChildNotSelf(m: Store, rank: map<Id, nat>, x: Id, c: Id)
    requires ValidShape(ShapeOf(m), rank) && x in m && c in m[x].w.children
    ensures c in m && c != x && m[c].w.parent == Some(x)
  {
    var g := ShapeOf(m);
    ShapeAt(m, x);
    assert RefsIn(g[x].w, g.Keys);
    ShapeAt(m, c);
    assert c in Kids(g, x);
    assert Par(g, c) == Some(x);
  }

  // ---------------------------------------------------------------------------
  // Repainting does not look at handle lists.

  /** The repaint climb reads only the links and the panel fields. */
  lemma {:induction false} RepaintTargetSame(m: Store, m': Store, gm: Geos, rank: map<Id, nat>, c: Id, r: Rect)
    requires Walkable(m, rank) && c in m && ShapeOf(m') == ShapeOf(m)
    requires forall d | d in m :: m'[d].a.panel == m[d].a.panel
    ensures Walkable(m', rank) && c in m' && RepaintTarget(m', gm, rank, c, r) == RepaintTarget(m, gm, rank, c, r)
    decreases Above(rank, c)
  {
    ShapeAt(m, c);
    ShapeAt(m', c);
    if m[c].w.parent.Some? {
      assert Steps(m, rank, c);
      var q := m[c].w.parent.value;
      var b := BoundsOf(gm, q);
      RepaintTargetSame(m, m', gm, rank, q, Rect(b.x + r.x, b.y + r.y, Min(b.w, r.w), Min(b.h, r.h)));
    }
  }

  /** A new handle list for x changes no repaint request. */
  lemma SelfRepaintHandles(m: Store, gm: Geos, rank: map<Id, nat>, x: Id, hs: seq<Id>, c: Id)
    requires Walkable(m, rank) && x in m && c in m
    ensures Walkable(WithHandles(m, x, hs), rank)
    ensures SelfRepaint(WithHandles(m, x, hs), gm, rank, c) == SelfRepaint(m, gm, rank, c)
  {
    var m' := WithHandles(m, x, hs);
    ShapeOfUpdate(m, x, m'[x]);
    RepaintTargetSame(m, m', gm, rank, c, PreferredBounds(m[c], GeoOf(gm, c)));
    assert PreferredBounds(m'[c], GeoOf(gm, c)) == PreferredBounds(m[c], GeoOf(gm, c));
  }

  // ---------------------------------------------------------------------------
  // Notes.

  /** The notes fireContainerComponentEvent leaves: one delivery per container
      listener, in order, or none when container notification is off. */
  function ContainerNotes(n: Node, ev: Event): (r: seq<Note>)
    ensures n.Is(ContainerNotify) ==> |r| == |n.List(ContainerList)| && forall i | 0 <= i < |r| :: r[i] == Heard(n.List(ContainerList)[i], ev)
    ensures !n.Is(ContainerNotify) ==> r == []
  {
    if n.Is(ContainerNotify) then Deliveries(n.List(ContainerList), ev) else []
  }

  /** AbstractContainerComponent.fireContainerComponentEvent. */
  method FireContainer(s: Scene, n: Node, ev: Event)
    modifies s`log
    ensures s.log == old(s.log) + ContainerNotes(n, ev)
  {
    if !n.Is(ContainerNotify) {
      return;
    }
    var ls := n.List(ContainerList);
    var i := 0;
    while i < |ls|
      invariant 0 <= i <= |ls|
      invariant s.log == old(s.log) + Deliveries(ls[..i], ev)
    {
      assert ls[..i + 1][..i] == ls[..i];
      s.log := s.log + [Heard(ls[i], ev)];
      i := i + 1;
    }
    assert ls[..|ls|] == ls;
  }

  /** The notes of c.setComponentPanel(null) once c has its new parent: when
      a panel is reachable from c, the property change and repaint(). */
  function LeaveNotes(m: Store, gm: Geos, ghost rank: map<Id, nat>, c: Id): (r: seq<Note>)
    requires Walkable(m, rank) && c in m
    ensures r == [] <==> !PanelOf(m, rank, c)
    ensures r != [] ==> r[0] == Changed(c, PanelProp) && |r| <= 2
  {
    WithoutPanelKeeps(m, c);
    if PanelOf(m, rank, c) then [Changed(c, PanelProp)] + SelfRepaint(WithoutPanel(m, c), gm, rank, c) else []
  }

  // ---------------------------------------------------------------------------
  // removeComponent

  /** The invariant of the scene while c is pending: between setting its
      parent and listing it. */
  ghost predicate PendingOk(nodes: Store, geo: Geos, rank: map<Id, nat>, next: Id, valid: set<Id>, c: Id) {
    Pending(ShapeOf(nodes), rank, c) && AttrRefsOk(nodes) && (forall d | d in nodes :: d < next)
    && geo.Keys == nodes.Keys && valid <= nodes.Keys
  }

  /** The store writes of removeComponent(index): the list removal and the
      child's setParentComponent(null), which fires the parent property
      change. */
  method Unhook(s: Scene, x: Id, i: nat) returns (c: Id)
    requires s.Valid() && x in s.nodes && i < |s.nodes[x].w.children|
    modifies s`nodes, s`log
    ensures c == old(s.nodes[x].w.children[i]) && c in s.nodes && c != x
    ensures s.Valid() && KindsKept(old(s.nodes), s.nodes) && s.nodes == Unlinked(old(s.nodes), x, i)
    ensures s.nodes[x].a == old(s.nodes[x].a)
    ensures s.log == old(s.log) + [Changed(c, ParentProp)]
  {
    UnlinkedShape(s.nodes, s.rank, x, i);
    AttrRefsKept(s.nodes, Unlinked(s.nodes, x, i));
    c := s.nodes[x].w.children[i];
    s.nodes, s.log := Unlinked(s.nodes, x, i), s.log + [Changed(c, ParentProp)];
  }

  /** The store writes, then COMPONENT_REMOVED. */
  method Unlink(s: Scene, x: Id, i: nat) returns (c: Id)
    requires s.Valid() && x in s.nodes && i < |s.nodes[x].w.children|
    modifies s`nodes, s`log
    ensures c == old(s.nodes[x].w.children[i]) && c in s.nodes && c != x
    ensures s.Valid() && KindsKept(old(s.nodes), s.nodes) && s.nodes == Unlinked(old(s.nodes), x, i)
    ensures s.log == old(s.log) + [Changed(c, ParentProp)] + ContainerNotes(old(s.nodes[x]), ContainerEv(x, Removed, c))
  {
    ghost var n0 := s.nodes[x];
    c := Unhook(s, x, i);
    FireContainer(s, s.nodes[x], ContainerEv(x, Removed, c));
    assert ContainerNotes(s.nodes[x], ContainerEv(x, Removed, c)) == ContainerNotes(n0, ContainerEv(x, Removed, c));
  }

  /** DefaultAdjustableComponent's part of removeComponent: a removed handle
      leaves the handle list, which changes no repaint of x. */
  method Untrack(s: Scene, x: Id, c: Id)
    requires s.Valid() && x in s.nodes && c in s.nodes
    modifies s`nodes
    ensures s.Valid() && KindsKept(old(s.nodes), s.nodes) && s.nodes == DropHandle(old(s.nodes), x, c)
    ensures SelfRepaint(s.nodes, s.geo, s.rank, x) == old(SelfRepaint(s.nodes, s.geo, s.rank, x))
  {
    if Tracks(s.nodes, x, c) {
      DropHandleKeeps(s.nodes, x, c);
      SelfRepaintHandles(s.nodes, s.geo, s.rank, x, Remove(s.nodes[x].a.handles, c), x);
      s.nodes := DropHandle(s.nodes, x, c);
    }
  }

  /** The revalidate(); repaint(); pair that ends both list changes: the
      store stays as it is, and when the layout pass completes the log ends
      with x's own repaint. */
  method Settle(s: Scene, v: View, x: Id, fuel: nat) returns (o: Outcome)
    requires s.Valid() && x in s.nodes
    modifies s`geo, s`valid, s`log
    ensures s.Valid() && old(s.log) <= s.log
    ensures o.Thrown? ==> o == Thrown(StackOverflow)
    ensures o.Normal? ==> EndsWith(s.log, SelfRepaint(s.nodes, s.geo, s.rank, x))
  {
    o := Revalidate(s, v, x, fuel);
    if o.Thrown? {
      return;
    }
    ghost var l := s.log;
    Repaint(s, x, PreferredBounds(s.nodes[x], GeoOf(s.geo, x)));
    EndsWithAppend(l, SelfRepaint(s.nodes, s.geo, s.rank, x));
  }

  /** removeComponent(index) as DefaultAdjustableComponent and
      AbstractContainerComponent define it: an index outside the list
      throws; otherwise the child leaves the list and loses its parent, the
      container fires COMPONENT_REMOVED, revalidates and repaints, and an
      adjustable component drops a removed handle from its handle list. */
  method RemoveComponentAt(s: Scene, v: View, x: Id, i: int, fuel: nat) returns (o: Outcome)
    requires s.Valid() && x in s.nodes && IsContainer(s.nodes[x].kind)
    modifies s`nodes, s`geo, s`valid, s`log
    ensures s.Valid() && KindsKept(old(s.nodes), s.nodes) && old(s.log) <= s.log
    ensures !(0 <= i < old(|s.nodes[x].w.children|)) ==> o == Thrown(IndexOutOfBounds) && unchanged(s)
    ensures 0 <= i < old(|s.nodes[x].w.children|) ==> old(s.nodes[x].w.children[i]) in old(s.nodes)
    ensures 0 <= i < old(|s.nodes[x].w.children|) ==>
      var c := old(s.nodes[x].w.children[i]);
      (o.Thrown? ==> o == Thrown(StackOverflow) && s.nodes == Unlinked(old(s.nodes), x, i))
      && (o.Normal? ==> s.nodes == Removal(old(s.nodes), x, i))
      && old(s.log) + [Changed(c, ParentProp)] + ContainerNotes(old(s.nodes[x]), ContainerEv(x, Removed, c)) <= s.log
    ensures o.Normal? ==> EndsWith(s.log, SelfRepaint(s.nodes, s.geo, s.rank, x))
  {
    if !(0 <= i < |s.nodes[x].w.children|) {
      return Thrown(IndexOutOfBounds);
    }
    ChildNotSelf(s.nodes, s.rank, x, s.nodes[x].w.children[i]);
    ghost var m0 := s.nodes;
    var c := Unlink(s, x, i);
    ghost var l2 := s.log;
    o := Settle(s, v, x, fuel);
    PrefixTrans(old(s.log), l2, s.log);
    if o.Thrown? {
      return;
    }
    ghost var m1 := s.nodes;
    Untrack(s, x, c);
    KindsKeptTrans(m0, m1, s.nodes);
  }

  /** removeComponent(component): nothing for null or a component the list
      does not hold; otherwise removeComponent at its index. */
  method RemoveComponent(s: Scene, v: View, x: Id, c: Option<Id>, fuel: nat) returns (o: Outcome)
    requires s.Valid() && x in s.nodes && IsContainer(s.nodes[x].kind)
    modifies s`nodes, s`geo, s`valid, s`log
    ensures s.Valid() && KindsKept(old(s.nodes), s.nodes) && old(s.log) <= s.log
    ensures o.Thrown? ==> o == Thrown(StackOverflow)
    ensures c.None? || c.value !in old(s.nodes[x].w.children) ==> o == Normal && unchanged(s)
    ensures c.Some? && c.value in old(s.nodes[x].w.children) ==> c.value in old(s.nodes)
    ensures c.Some? && c.value in old(s.nodes[x].w.children) ==>
      var i := IndexOf(old(s.nodes[x].w.children), c.value);
      (o.Normal? ==> s.nodes == Removal(old(s.nodes), x, i))
      && old(s.log) + [Changed(c.value, ParentProp)] + ContainerNotes(old(s.nodes[x]), ContainerEv(x, Removed, c.value)) <= s.log
    ensures o.Normal? && c.Some? && c.value in old(s.nodes[x].w.children) ==> EndsWith(s.log, SelfRepaint(s.nodes, s.geo, s.rank, x))
  {
    if c.None? {
      return Normal;
    }
    var i := IndexOf(s.nodes[x].w.children, c.value);
    if i > -1 {
      ChildNotSelf(s.nodes, s.rank, x, c.value);
      o := RemoveComponentAt(s, v, x, i, fuel);
    } else {
      o := Normal;
    }
  }

  /** What addComponent does to a component that has a parent: the old
      parent's removeComponent(component). */
  method Detach(s: Scene, v: View, c: Id, fuel: nat) returns (o: Outcome)
    requires s.Valid() && c in s.nodes
    modifies s`nodes, s`geo, s`valid, s`log
    ensures s.Valid() && KindsKept(old(s.nodes), s.nodes) && old(s.log) <= s.log
    ensures o.Thrown? ==> o == Thrown(StackOverflow)
    ensures o.Normal? ==> s.nodes == Detached(old(s.nodes), c)
    ensures old(s.nodes[c].w.parent).None? ==> o == Normal && unchanged(s)
  {
    var q := s.nodes[c].w.parent;
    if q.None? {
      return Normal;
    }
    ParentLists(s.nodes, s.rank, c);
    o := RemoveComponent(s, v, q.value, Some(c), fuel);
  }

  // ---------------------------------------------------------------------------
  // addComponent

  /** The scene invariant survives a new store with the same components and
      attribute references whose graph is valid. */
  lemma SceneOkKept(m: Store, m': Store, geo: Geos, rank: map<Id, nat>, next: Id, valid: set<Id>)
    requires SceneOk(m, geo, rank, next, valid) && ValidShape(ShapeOf(m'), rank) && SameRefs(m, m')
    ensures SceneOk(m', geo, rank, next, valid) && KindsKept(m, m')
  {
    AttrRefsKept(m, m');
  }

  /** The state TakeParent leaves: pending at c under the re-ranked chain. */
  lemma TakeParentOk(m: Store, geo: Geos, rank: map<Id, nat>, next: Id, valid: set<Id>, c: Id, x: Id) returns (rank': map<Id, nat>)
    requires SceneOk(m, geo, rank, next, valid) && c in m && x in m
    requires m[c].w.parent.None? && IsContainer(m[x].kind)
    requires MayAdopt(ShapeOf(m), rank, c, x)
    ensures x != c && PendingOk(WithParent(m, c, Some(x)), geo, rank', next, valid, c)
    ensures SameRefs(m, WithParent(m, c, Some(x)))
  {
    AttachStep(m, rank, c, x);
    AttrRefsKept(m, WithParent(m, c, Some(x)));
    rank' := Bump(ShapeOf(m), rank, x, rank[c] + 1);
  }

  /** Clearing c's panel field keeps the pending state. */
  lemma LeavePanelOk(m: Store, geo: Geos, rank: map<Id, nat>, next: Id, valid: set<Id>, c: Id)
    requires PendingOk(m, geo, rank, next, valid, c)
    ensures PendingOk(WithoutPanel(m, c), geo, rank, next, valid, c) && SameRefs(m, WithoutPanel(m, c))
  {
    WithoutPanelKeeps(m, c);
    AttrRefsKept(m, WithoutPanel(m, c));
  }

  /** Listing the pending child restores the scene invariant. */
  lemma ListChildOk(m: Store, geo: Geos, rank: map<Id, nat>, next: Id, valid: set<Id>, x: Id, i: nat, c: Id)
    requires PendingOk(m, geo, rank, next, valid, c) && x in m
    requires m[c].w.parent == Some(x) && IsContainer(m[x].kind) && i <= |m[x].w.children|
    ensures SceneOk(WithChildren(m, x, InsertAt(m[x].w.children, i, c)), geo, rank, next, valid)
    ensures SameRefs(m, WithChildren(m, x, InsertAt(m[x].w.children, i, c)))
  {
    ListStep(m, rank, c, x, i);
    AttrRefsKept(m, WithChildren(m, x, InsertAt(m[x].w.children, i, c)));
  }

  /** The three store writes of addComponent, one after the other, keep the
      scene invariant under a re-ranked chain. */
  lemma AdoptOk(m: Store, geo: Geos, rank: map<Id, nat>, next: Id, valid: set<Id>, x: Id, i: nat, c: Id) returns (rank': map<Id, nat>)
    requires SceneOk(m, geo, rank, next, valid) && c in m && x in m
    requires m[c].w.parent.None? && IsContainer(m[x].kind) && i <= |m[x].w.children|
    requires MayAdopt(ShapeOf(m), rank, c, x)
    ensures x != c && Walkable(WithParent(m, c, Some(x)), rank')
    ensures SceneOk(Adopted(m, x, i, c), geo, rank', next, valid) && KindsKept(m, Adopted(m, x, i, c))
    ensures Adopted(m, x, i, c)[x].a == m[x].a
  {
    rank' := TakeParentOk(m, geo, rank, next, valid, c, x);
    var m1 := WithParent(m, c, Some(x));
    LeavePanelOk(m1, geo, rank', next, valid, c);
    var m2 := WithoutPanel(m1, c);
    assert m2[x] == m[x];
    ListChildOk(m2, geo, rank', next, valid, x, i, c);
    SameRefsTrans(m, m1, m2);
    SameRefsTrans(m, m2, Adopted(m, x, i, c));
  }

  /** The store writes of addComponent: c.setParentComponent(x) sets the
      field and fires the parent property; c.setComponentPanel(null) clears a
      reachable panel, fires the panel property and repaints c; then c enters
      x's list at i. */
  method Attach(s: Scene, x: Id, i: nat, c: Id)
    requires s.Valid() && c in s.nodes && x in s.nodes
    requires s.nodes[c].w.parent.None? && IsContainer(s.nodes[x].kind) && i <= |s.nodes[x].w.children|
    requires MayAdopt(ShapeOf(s.nodes), s.rank, c, x)
    modifies s`nodes, s`rank, s`log
    ensures s.Valid() && KindsKept(old(s.nodes), s.nodes) && x != c
    ensures s.nodes == Adopted(old(s.nodes), x, i, c) && s.nodes[x].a == old(s.nodes[x].a)
    ensures Walkable(WithParent(old(s.nodes), c, Some(x)), s.rank)
    ensures s.log == old(s.log) + [Changed(c, ParentProp)] + LeaveNotes(WithParent(old(s.nodes), c, Some(x)), old(s.geo), s.rank, c)
  {
    ghost var rank' := AdoptOk(s.nodes, s.geo, s.rank, s.next, s.valid, x, i, c);
    s.log := s.log + [Changed(c, ParentProp)] + LeaveNotes(WithParent(s.nodes, c, Some(x)), s.geo, rank', c);
    s.nodes, s.rank := Adopted(s.nodes, x, i, c), rank';
  }

  /** The first half of addComponent's work: the store writes, then x
      fires COMPONENT_ADDED. */
  method Adopt(s: Scene, x: Id, i: nat, c: Id)
    requires s.Valid() && c in s.nodes && x in s.nodes
    requires s.nodes[c].w.parent.None? && IsContainer(s.nodes[x].kind) && i <= |s.nodes[x].w.children|
    requires MayAdopt(ShapeOf(s.nodes), s.rank, c, x)
    modifies s`nodes, s`rank, s`log
    ensures s.Valid() && KindsKept(old(s.nodes), s.nodes) && x != c
    ensures s.nodes == Adopted(old(s.nodes), x, i, c)
    ensures Walkable(WithParent(old(s.nodes), c, Some(x)), s.rank)
    ensures s.log == old(s.log) + [Changed(c, ParentProp)] + LeaveNotes(WithParent(old(s.nodes), c, Some(x)), old(s.geo), s.rank, c)
      + ContainerNotes(old(s.nodes[x]), ContainerEv(x, Added, c))
  {
    ghost var n0 := s.nodes[x];
    Attach(s, x, i, c);
    FireContainer(s, s.nodes[x], ContainerEv(x, Added, c));
    assert ContainerNotes(s.nodes[x], ContainerEv(x, Added, c)) == ContainerNotes(n0, ContainerEv(x, Added, c));
  }

  /** DefaultAdjustableComponent's part of addComponent: a handle enters the
      handle list and is placed. */
  method TrackHandle(s: Scene, x: Id, c: Id, fuel: nat) returns (o: Outcome)
    requires s.Valid() && x in s.nodes && c in s.nodes && c != x
    modifies s`nodes, s`geo, s`valid, s`log
    ensures s.Valid() && KindsKept(old(s.nodes), s.nodes) && old(s.log) <= s.log
    ensures o.Thrown? ==> o == Thrown(StackOverflow)
    ensures s.nodes == NoteHandle(old(s.nodes), x, c)
    ensures !old(Tracks(s.nodes, x, c)) ==> o == Normal && unchanged(s)
  {
    if !Tracks(s.nodes, x, c) {
      return Normal;
    }
    NoteHandleKeeps(s.nodes, x, c);
    s.nodes := NoteHandle(s.nodes, x, c);
    o := UpdateHandlePosition(s, x, c, fuel);
  }

  /** What addComponent does once c is listed and announced: x revalidates
      and repaints, and an adjustable x tracks and places a handle. */
  method SettleAdded(s: Scene, v: View, x: Id, c: Id, fuel: nat) returns (o: Outcome)
    requires s.Valid() && x in s.nodes && c in s.nodes && c != x
    modifies s`nodes, s`geo, s`valid, s`log
    ensures s.Valid() && KindsKept(old(s.nodes), s.nodes) && old(s.log) <= s.log
    ensures o.Thrown? ==> o == Thrown(StackOverflow)
    ensures o.Normal? ==> s.nodes == NoteHandle(old(s.nodes), x, c)
    ensures o.Thrown? ==> s.nodes == old(s.nodes) || s.nodes == NoteHandle(old(s.nodes), x, c)
    ensures o.Normal? && !old(Tracks(s.nodes, x, c)) ==> EndsWith(s.log, SelfRepaint(s.nodes, s.geo, s.rank, x))
  {
    o := Settle(s, v, x, fuel);
    if o.Thrown? {
      return;
    }
    ghost var l := s.log;
    o := TrackHandle(s, x, c, fuel);
    PrefixTrans(old(s.log), l, s.log);
  }

  /** The part of addComponent once c has no parent and the guards passed:
      c takes x as its parent and leaves any panel, enters the list, x fires
      COMPONENT_ADDED, revalidates and repaints, and an adjustable x tracks
      and places a handle. */
  method Join(s: Scene, v: View, x: Id, i: nat, c: Id, fuel: nat) returns (o: Outcome)
    requires s.Valid() && c in s.nodes && x in s.nodes
    requires s.nodes[c].w.parent.None? && IsContainer(s.nodes[x].kind) && i <= |s.nodes[x].w.children|
    requires MayAdopt(ShapeOf(s.nodes), s.rank, c, x)
    modifies s`nodes, s`rank, s`geo, s`valid, s`log
    ensures s.Valid() && KindsKept(old(s.nodes), s.nodes) && old(s.log) <= s.log
    ensures o.Thrown? ==> o == Thrown(StackOverflow)
    ensures o.Normal? ==> s.nodes == Addition(old(s.nodes), x, i, c)
    ensures o.Thrown? ==> s.nodes == Adopted(old(s.nodes), x, i, c) || s.nodes == Addition(old(s.nodes), x, i, c)
    ensures Walkable(WithParent(old(s.nodes), c, Some(x)), s.rank)
    ensures old(s.log) + [Changed(c, ParentProp)] + LeaveNotes(WithParent(old(s.nodes), c, Some(x)), old(s.geo), s.rank, c)
      + ContainerNotes(old(s.nodes[x]), ContainerEv(x, Added, c)) <= s.log
    ensures o.Normal? && !old(Tracks(s.nodes, x, c)) ==> EndsWith(s.log, SelfRepaint(s.nodes, s.geo, s.rank, x))
  {
    ghost var m0 := s.nodes;
    Adopt(s, x, i, c);
    ghost var m3 := s.nodes;
    ghost var l3 := s.log;
    o := SettleAdded(s, v, x, c, fuel);
    PrefixTrans(old(s.log), l3, s.log);
    KindsKeptTrans(m0, m3, s.nodes);
  }

  /** addComponent(index, component) as DefaultAdjustableComponent and
      AbstractContainerComponent define it, with the three corrections the
      findings describe: every kind of child leaves its old parent, the
      guards refuse a container as its own parent and let a handle leave,
      and a bad index throws before anything changes. */
  method AddComponent(s: Scene, v: View, x: Id, i: int, c: Option<Id>, fuel: nat) returns (o: Outcome)
    requires s.Valid() && x in s.nodes && IsContainer(s.nodes[x].kind) && (c.Some? ==> c.value in s.nodes)
    modifies s`nodes, s`rank, s`geo, s`valid, s`log
    ensures s.Valid() && KindsKept(old(s.nodes), s.nodes) && old(s.log) <= s.log
    ensures c.None? ==> o == Thrown(NullPointer) && unchanged(s)
    ensures c.Some? && c.value in old(s.nodes[x].w.children) ==>
      s.nodes == NoteHandle(old(s.nodes), x, c.value) && (o.Thrown? ==> o == Thrown(StackOverflow))
      && (!old(Tracks(s.nodes, x, c.value)) ==> o == Normal && unchanged(s))
    ensures c.Some? && c.value !in old(s.nodes[x].w.children) && !(0 <= i <= old(|s.nodes[x].w.children|)) ==>
      o == Thrown(IndexOutOfBounds) && unchanged(s)
    ensures c.Some? && c.value !in old(s.nodes[x].w.children) && 0 <= i <= old(|s.nodes[x].w.children|) ==>
      (o.Normal? ==> s.nodes == Addition(Detached(old(s.nodes), c.value), x, i, c.value))
      && (o.Thrown? && o != Thrown(StackOverflow) ==>
            s.nodes == Detached(old(s.nodes), c.value)
            && ParentRefusal(ShapeOf(s.nodes), s.rank, c.value, Some(x)) == Some(o.exc))
  {
    if c.None? {
      return Thrown(NullPointer);
    }
    var k := c.value;
    if k in s.nodes[x].w.children {
      ChildNotSelf(s.nodes, s.rank, x, k);
      o := TrackHandle(s, x, k, fuel);
      return;
    }
    if !(0 <= i <= |s.nodes[x].w.children|) {
      return Thrown(IndexOutOfBounds);
    }
    ghost var m0 := s.nodes;
    DetachedKeepsOthers(s.nodes, s.rank, k, x);
    o := Detach(s, v, k, fuel);
    if o.Thrown? {
      return;
    }
    DetachedShape(m0, s.rank, k);
    ghost var m1 := s.nodes;
    var refusal := ParentRefusal(ShapeOf(s.nodes), s.rank, k, Some(x));
    if refusal.Some? {
      return Thrown(refusal.value);
    }
    ParentRefusalSpec(ShapeOf(s.nodes), s.rank, k, x);
    o := Join(s, v, x, i, k, fuel);
    KindsKeptTrans(m0, m1, s.nodes);
  }

  // ---------------------------------------------------------------------------
  // The container's own setters, and setComponentPanel.

  lemma LayoutKeeps(m: Store, geo: Geos, rank: map<Id, nat>, next: Id, valid: set<Id>, x: Id, l: Option<Layout>)
    requires SceneOk(m, geo, rank, next, valid) && x in m
    ensures SceneOk(WithLayout(m, x, l), geo, rank, next, valid) && ShapeOf(WithLayout(m, x, l)) == ShapeOf(m)
  {
    ShapeOfUpdate(m, x, m[x].(a := m[x].a.(layout := l)));
    SceneOkKept(m, WithLayout(m, x, l), geo, rank, next, valid);
  }

  /** setContainerLayout(layout): nothing when the layout is the same;
      otherwise the field is set, the property change fires and the
      container invalidates. */
  method SetContainerLayout(s: Scene, x: Id, l: Option<Layout>, fuel: nat) returns (o: Outcome)
    requires s.Valid() && x in s.nodes && IsContainer(s.nodes[x].kind)
    modifies s`nodes, s`valid, s`log
    ensures s.Valid() && old(s.log) <= s.log
    ensures o.Thrown? ==> o == Thrown(StackOverflow)
    ensures old(s.nodes[x].a.layout) == l ==> o == Normal && unchanged(s)
    ensures old(s.nodes[x].a.layout) != l ==>
      s.nodes == WithLayout(old(s.nodes), x, l) && old(s.log) + [Changed(x, LayoutProp)] <= s.log
      && (o.Normal? ==> x !in s.valid)
  {
    if s.nodes[x].a.layout == l {
      return Normal;
    }
    LayoutKeeps(s.nodes, s.geo, s.rank, s.next, s.valid, x, l);
    s.nodes := WithLayout(s.nodes, x, l);
    s.log := s.log + [Changed(x, LayoutProp)];
    o := Invalidate(s, x, fuel);
  }

  /** setComponentPanel(panel) (b says whether the argument is the panel or
      null): a panel for a component that is not a root throws; nothing
      happens when the argument equals the panel reachable from c; otherwise
      the field is set, the property change fires and c repaints. */
  method SetComponentPanel(s: Scene, v: View, c: Id, b: bool) returns (o: Outcome)
    requires s.Valid() && c in s.nodes
    modifies s`nodes, s`log
    ensures s.Valid() && ShapeOf(s.nodes) == ShapeOf(old(s.nodes))
    ensures b && !old(IsRootComponent(s.nodes, s.rank, v.roots, c)) ==> o == Thrown(Runtime) && unchanged(s)
    ensures !(b && !old(IsRootComponent(s.nodes, s.rank, v.roots, c))) ==> o == Normal
    ensures !(b && !old(IsRootComponent(s.nodes, s.rank, v.roots, c))) && old(PanelOf(s.nodes, s.rank, c)) == b ==> unchanged(s)
    ensures !(b && !old(IsRootComponent(s.nodes, s.rank, v.roots, c))) && old(PanelOf(s.nodes, s.rank, c)) != b ==>
      s.nodes == WithPanel(old(s.nodes), c, b)
      && s.log == old(s.log) + [Changed(c, PanelProp)] + SelfRepaint(s.nodes, s.geo, s.rank, c)
  {
    if b && !IsRootComponent(s.nodes, s.rank, v.roots, c) {
      return Thrown(Runtime);
    }
    if PanelOf(s.nodes, s.rank, c) == b {
      return Normal;
    }
    WithPanelKeeps(s.nodes, c, b);
    AttrRefsKept(s.nodes, WithPanel(s.nodes, c, b));
    s.nodes := WithPanel(s.nodes, c, b);
    s.log := s.log + [Changed(c, PanelProp)];
    Repaint(s, c, PreferredBounds(s.nodes[c], GeoOf(s.geo, c)));
    o := Normal;
  }

  /** Setting the panel makes it reachable; clearing it on a component
      without a parent makes it unreachable; and a component whose own field
      is null reaches the panel exactly when its parent does. */
  lemma PanelOfAfterSet(m: Store, rank: map<Id, nat>, c: Id, b: bool)
    requires Walkable(m, rank) && c in m
    ensures Walkable(WithPanel(m, c, b), rank)
    ensures b ==> PanelOf(WithPanel(m, c, b), rank, c)
    ensures !b && m[c].w.parent.None? ==> !PanelOf(WithPanel(m, c, b), rank, c)
    ensures !b && m[c].w.parent.Some? ==> m[c].w.parent.value in m && (PanelOf(WithPanel(m, c, b), rank, c) <==> PanelOf(WithPanel(m, c, b), rank, m[c].w.parent.value))
  {
    WithPanelKeeps(m, c, b);
    ShapeAt(m, c);
    ShapeAt(WithPanel(m, c, b), c);
    if m[c].w.parent.Some? {
      assert Steps(WithPanel(m, c, b), rank, c);
    }
  }
}
