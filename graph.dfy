/**
 * The component graph as an id-indexed store, the structural invariants the
 * container and connection operations keep, and the walks over parent chains
 * and child lists (ComponentUtils and the AbstractComponent walks).
 */
module Graph {
  import opened Outcomes
  import opened Seqs
  import opened Nodes

  /** Every component object of the scene, by identity. */
  type Store = map<Id, Node>

  /** The part of a component that the structural invariants talk about. */
  datatype Shape = Shape(kind: Kind, w: Wiring)

  type Shapes = map<Id, Shape>

  function ShapeOf(m: Store): (g: Shapes)
    ensures g.Keys == m.Keys
  {
    map c | c in m :: Shape(m[c].kind, m[c].w)
  }

  /** Writing a component whose class and links stay the same keeps the shape of the store. */
  lemma ShapeOfUpdate(m: Store, c: Id, n: Node)
    requires c in m && n.kind == m[c].kind && n.w == m[c].w
    ensures ShapeOf(m[c := n]) == ShapeOf(m)
  {
    assert forall d | d in m[c := n] :: ShapeOf(m[c := n])[d] == ShapeOf(m)[d];
  }

  /** Writing a component changes the shape of the store at that component only. */
  lemma ShapeOfWrite(m: Store, c: Id, n: Node)
    ensures ShapeOf(m[c := n]) == ShapeOf(m)[c := Shape(n.kind, n.w)]
  {
  }

  // ---------------------------------------------------------------------------
  // The two ends of a connection.

  /** A connection's source is listed in the source's outbound list, its
      destination in the destination's inbound list. */
  datatype End = Source | Dest

  function EndOf(w: Wiring, e: End): Option<Id> {
    if e == Source then w.source else w.dest
  }

  function Listed(w: Wiring, e: End): seq<Id> {
    if e == Source then w.outbound else w.inbound
  }

  function WithEnd(w: Wiring, e: End, v: Option<Id>): (r: Wiring)
    ensures EndOf(r, e) == v && Listed(r, Source) == Listed(w, Source) && Listed(r, Dest) == Listed(w, Dest)
    ensures r.parent == w.parent && r.children == w.children
    ensures EndOf(r, if e == Source then Dest else Source) == EndOf(w, if e == Source then Dest else Source)
  {
    if e == Source then w.(source := v) else w.(dest := v)
  }

  function WithListed(w: Wiring, e: End, s: seq<Id>): (r: Wiring)
    ensures Listed(r, e) == s && EndOf(r, Source) == EndOf(w, Source) && EndOf(r, Dest) == EndOf(w, Dest)
    ensures r.parent == w.parent && r.children == w.children
    ensures Listed(r, if e == Source then Dest else Source) == Listed(w, if e == Source then Dest else Source)
  {
    if e == Source then w.(outbound := s) else w.(inbound := s)
  }

  // ---------------------------------------------------------------------------
  // Structural invariants.

  /** Every component a component refers to exists. */
  predicate RefsIn(w: Wiring, ks: set<Id>) {
    (w.parent.Some? ==> w.parent.value in ks)
    && (forall d {:trigger d in w.children} | d in w.children :: d in ks)
    && (forall d {:trigger d in w.inbound} | d in w.inbound :: d in ks)
    && (forall d {:trigger d in w.outbound} | d in w.outbound :: d in ks)
    && (w.source.Some? ==> w.source.value in ks)
    && (w.dest.Some? ==> w.dest.value in ks)
  }

  predicate Closed(g: Shapes) {
    forall c | c in g :: RefsIn(g[c].w, g.Keys)
  }

  /** What the classes allow: only containers have children, only connected
      components have connection lists, only connections have ends, a root has
      no parent and a handle only ever sits in an adjustable component. */
  predicate KindOk(g: Shapes, c: Id)
    requires c in g && RefsIn(g[c].w, g.Keys)
  {
    var s := g[c];
    (!IsContainer(s.kind) ==> s.w.children == [])
    && (!IsConnectedKind(s.kind) ==> s.w.inbound == [] && s.w.outbound == [])
    && (!s.kind.Connection? ==> s.w.source.None? && s.w.dest.None?)
    && (s.kind.Root? ==> s.w.parent.None?)
    && (s.kind.Handle? && s.w.parent.Some? ==> g[s.w.parent.value].kind.Adjustable?)
  }

  predicate WellKinded(g: Shapes)
    requires Closed(g)
  {
    forall c | c in g :: KindOk(g, c)
  }

  /** Every parent ranks strictly above its child, so parent chains end. */
  ghost predicate Ranked(g: Shapes, rank: map<Id, nat>) {
    (forall c | c in g :: c in rank)
    && forall c | c in g && g[c].w.parent.Some? && g[c].w.parent.value in rank ::
         c in rank && rank[g[c].w.parent.value] > rank[c]
  }

  function Par(g: Shapes, c: Id): Option<Id>
  {
    if c in g then g[c].w.parent else None
  }

  function Kids(g: Shapes, c: Id): seq<Id>
  {
    if c in g then g[c].w.children else []
  }

  /** No child list holds a component twice. */
  predicate KidsNoDup(g: Shapes) {
    forall q | q in g :: NoDup(g[q].w.children)
  }

  /** A component has parent q exactly when q lists it as a child. */
  predicate ParentChild(g: Shapes) {
    KidsNoDup(g)
    && forall y, q {:trigger y in Kids(g, q)} {:trigger Par(g, y), q in g} | y in g && q in g :: Par(g, y) == Some(q) <==> y in Kids(g, q)
  }

  /** ParentChild for every component but c, and no container lists c: the
      state between the two halves of addComponent and of removeComponent,
      which write the child's parent field and the child list one after the
      other. */
  predicate ParentChildBut(g: Shapes, c: Id) {
    KidsNoDup(g)
    && (forall y, q | y in g && q in g && y != c :: Par(g, y) == Some(q) <==> y in Kids(g, q))
    && (forall q | q in g :: c !in Kids(g, q))
  }

  /** A connection lists its end exactly when the end's list holds it. */
  predicate LinkedEnd(g: Shapes, e: End) {
    (forall x | x in g :: NoDup(Listed(g[x].w, e)))
    && forall k, x {:trigger k in Listed(g[x].w, e)} {:trigger EndOf(g[k].w, e), x in g} | k in g && x in g :: k in Listed(g[x].w, e) <==> EndOf(g[k].w, e) == Some(x)
  }

  predicate Linked(g: Shapes) {
    LinkedEnd(g, Source) && LinkedEnd(g, Dest)
  }

  /** The invariant of the component graph. */
  ghost predicate ValidShape(g: Shapes, rank: map<Id, nat>) {
    Closed(g) && WellKinded(g) && Ranked(g, rank) && ParentChild(g) && Linked(g)
  }

  /** The invariant with component c's parent link set and c not yet (or no
      longer) in its parent's child list. */
  ghost predicate Pending(g: Shapes, rank: map<Id, nat>, c: Id) {
    c in g && Closed(g) && WellKinded(g) && Ranked(g, rank) && ParentChildBut(g, c) && Linked(g)
  }

  /** A component without a parent is listed by nobody. */
  lemma DetachedIsPending(g: Shapes, rank: map<Id, nat>, c: Id)
    requires ValidShape(g, rank) && c in g && g[c].w.parent.None?
    ensures Pending(g, rank, c)
  {
    forall q | q in g ensures c !in Kids(g, q) {
      assert c in Kids(g, q) ==> Par(g, c) == Some(q);
    }
  }

  /** A parentless component listed by nobody leaves nothing pending. */
  lemma PendingDetached(g: Shapes, rank: map<Id, nat>, c: Id)
    requires Pending(g, rank, c) && g[c].w.parent.None?
    ensures ValidShape(g, rank)
  {
  }

  // ---------------------------------------------------------------------------
  // Parent-chain walks.

  /** The components ranked above x: climbing to a parent leaves fewer of
      them, which is why parent chains end. */
  ghost function Above(rank: map<Id, nat>, x: Id): set<Id> {
    set y | y in rank && x in rank && rank[y] > rank[x]
  }

  lemma AboveShrinks(rank: map<Id, nat>, x: Id, p: Id)
    requires x in rank && p in rank && rank[p] > rank[x]
    ensures Above(rank, p) < Above(rank, x)
  {
    assert p in Above(rank, x) && p !in Above(rank, p);
  }

  /** The step a walk takes up the parent chain, as a fact to hang termination on. */
  ghost predicate ClimbShrinks(g: Shapes, rank: map<Id, nat>, x: Id)
    requires Closed(g) && Ranked(g, rank) && x in g && g[x].w.parent.Some?
    ensures ClimbShrinks(g, rank, x)
    ensures Above(rank, g[x].w.parent.value) < Above(rank, x)
  {
    AboveShrinks(rank, x, g[x].w.parent.value);
    true
  }

  /** y is x or one of x's ancestors. */
  ghost predicate AncestorOrSelf(g: Shapes, rank: map<Id, nat>, x: Id, y: Id)
    requires Closed(g) && Ranked(g, rank) && x in g
    decreases Above(rank, x)
  {
    x == y || (g[x].w.parent.Some? && ClimbShrinks(g, rank, x) && AncestorOrSelf(g, rank, g[x].w.parent.value, y))
  }

  /** ComponentUtils.isAncestorOfComponent(component, ancestor): false for null
      arguments and for a component and itself, otherwise whether the ancestor
      is met climbing the parent chain. */
  function IsAncestorOf(g: Shapes, ghost rank: map<Id, nat>, component: Option<Id>, ancestor: Option<Id>): bool
    requires Closed(g) && Ranked(g, rank)
    requires component.Some? ==> component.value in g
    decreases if component.Some? then Above(rank, component.value) else {}, if component.Some? then 1 else 0
  {
    if component.None? || ancestor.None? || component == ancestor then false
    else
      var parent := g[component.value].w.parent;
      if ancestor == parent then true
      else
        assert parent.Some? ==> ClimbShrinks(g, rank, component.value);
        IsAncestorOf(g, rank, parent, ancestor)
  }

  /** An ancestor of a component is the component's parent or one of the parent's ancestors. */
  lemma AncestorOrSelfIff(g: Shapes, rank: map<Id, nat>, x: Id, y: Id)
    requires Closed(g) && Ranked(g, rank) && x in g
    ensures AncestorOrSelf(g, rank, x, y) <==> x == y || IsAncestorOf(g, rank, Some(x), Some(y))
    decreases Above(rank, x)
  {
    if x != y && g[x].w.parent.Some? {
      assert ClimbShrinks(g, rank, x);
      AncestorOrSelfIff(g, rank, g[x].w.parent.value, y);
    }
  }

  /** Climbing from an ancestor-or-self of x to its parent stays on x's chain. */
  lemma {:induction false} AncestorOrSelfParent(g: Shapes, rank: map<Id, nat>, x: Id, y: Id)
    requires Closed(g) && Ranked(g, rank) && x in g && y in g
    requires AncestorOrSelf(g, rank, x, y) && g[y].w.parent.Some?
    ensures AncestorOrSelf(g, rank, x, g[y].w.parent.value)
    decreases Above(rank, x)
  {
    if x != y {
      assert ClimbShrinks(g, rank, x);
      AncestorOrSelfParent(g, rank, g[x].w.parent.value, y);
    } else {
      var q := g[x].w.parent.value;
      assert AncestorOrSelf(g, rank, q, q);
    }
  }

  /** A component that is anybody's ancestor has children. */
  lemma {:induction false} AncestorHasChildren(g: Shapes, rank: map<Id, nat>, x: Id, c: Id)
    requires ValidShape(g, rank) && x in g && c in g
    requires IsAncestorOf(g, rank, Some(x), Some(c))
    ensures g[c].w.children != []
    decreases Above(rank, x)
  {
    var parent := g[x].w.parent;
    if parent == Some(c) {
      assert x in Kids(g, c);
    } else {
      assert ClimbShrinks(g, rank, x);
      AncestorHasChildren(g, rank, parent.value, c);
    }
  }

  /** The ranks raised by one more than rank[c] on x and all its ancestors:
      what attaching the parentless c below x needs. */
  ghost function Bump(g: Shapes, rank: map<Id, nat>, x: Id, delta: nat): map<Id, nat>
    requires Closed(g) && Ranked(g, rank) && x in g
  {
    map y | y in rank :: if y in g && AncestorOrSelf(g, rank, x, y) then rank[y] + delta else rank[y]
  }

  /** Setting the parent of a parentless c, which is not on x's chain, to x keeps
      the graph ranked once x's chain is bumped. */
  lemma AttachRanked(g: Shapes, rank: map<Id, nat>, c: Id, x: Id)
    requires Closed(g) && Ranked(g, rank) && c in g && x in g
    requires g[c].w.parent.None? && !AncestorOrSelf(g, rank, x, c)
    ensures Ranked(g[c := g[c].(w := g[c].w.(parent := Some(x)))], Bump(g, rank, x, rank[c] + 1))
  {
    var g' := g[c := g[c].(w := g[c].w.(parent := Some(x)))];
    var r' := Bump(g, rank, x, rank[c] + 1);
    assert AncestorOrSelf(g, rank, x, x);
    forall y | y in g' && g'[y].w.parent.Some? && g'[y].w.parent.value in r'
      ensures y in r' && r'[g'[y].w.parent.value] > r'[y]
    {
      var q := g'[y].w.parent.value;
      if y != c && AncestorOrSelf(g, rank, x, y) {
        AncestorOrSelfParent(g, rank, x, y);
      }
    }
  }

  /** Lowering the parent of c to nothing keeps the graph ranked. */
  lemma DetachRanked(g: Shapes, rank: map<Id, nat>, c: Id)
    requires Ranked(g, rank) && c in g
    ensures Ranked(g[c := g[c].(w := g[c].w.(parent := None))], rank)
  {
  }

  // ---------------------------------------------------------------------------
  // Descendants.

  /** ComponentUtils.isDescendantOfComponent(component, descendant): false for
      null arguments, otherwise a depth-first search over the child lists that
      stops at the first hit, descending only into containers. */
  function IsDescendantOf(g: Shapes, ghost rank: map<Id, nat>, component: Option<Id>, descendant: Option<Id>): bool
    requires Closed(g) && Ranked(g, rank) && ParentChild(g)
    requires component.Some? ==> component.value in g
  {
    if component.None? || descendant.None? then false
    else AnyChildHolds(g, rank, component.value, descendant.value, 0)
  }

  /** The search loop of isDescendantOfComponent, from child index i on. */
  function AnyChildHolds(g: Shapes, ghost rank: map<Id, nat>, c: Id, d: Id, i: nat): bool
    requires Closed(g) && Ranked(g, rank) && ParentChild(g) && c in g
    decreases rank[c], 0, |g[c].w.children| - i
  {
    if i >= |g[c].w.children| then false
    else
      var child := g[c].w.children[i];
      assert child in Kids(g, c);
      if child == d then true
      else if IsContainer(g[child].kind) && Descends(g, rank, child, d) then true
      else AnyChildHolds(g, rank, c, d, i + 1)
  }

  function Descends(g: Shapes, ghost rank: map<Id, nat>, c: Id, d: Id): bool
    requires Closed(g) && Ranked(g, rank) && ParentChild(g) && c in g
    decreases rank[c], 1, 0
  {
    AnyChildHolds(g, rank, c, d, 0)
  }

  /** The search from index i succeeds exactly when some child at index i or
      later is d or has d below it. */
  lemma {:induction false} AnyChildHoldsIff(g: Shapes, rank: map<Id, nat>, c: Id, d: Id, i: nat)
    requires ValidShape(g, rank) && c in g
    ensures AnyChildHolds(g, rank, c, d, i) <==>
      exists j | i <= j < |g[c].w.children| && g[c].w.children[j] in g ::
        g[c].w.children[j] == d || Descends(g, rank, g[c].w.children[j], d)
    decreases |g[c].w.children| - i
  {
    var ch := g[c].w.children;
    if i < |ch| {
      AnyChildHoldsIff(g, rank, c, d, i + 1);
      var child := ch[i];
      assert child in Kids(g, c);
      if !IsContainer(g[child].kind) {
        NoChildrenNoDescendant(g, rank, child, d);
      }
    }
  }

  lemma NoChildrenNoDescendant(g: Shapes, rank: map<Id, nat>, c: Id, d: Id)
    requires ValidShape(g, rank) && c in g && g[c].w.children == []
    ensures !Descends(g, rank, c, d)
  {
  }

  /** Whatever the search finds below c has c on its parent chain. */
  lemma {:induction false} DescendsToAncestor(g: Shapes, rank: map<Id, nat>, c: Id, d: Id)
    requires ValidShape(g, rank) && c in g && d in g
    requires Descends(g, rank, c, d)
    ensures IsAncestorOf(g, rank, Some(d), Some(c))
    decreases rank[c]
  {
    AnyChildHoldsIff(g, rank, c, d, 0);
    var ch := g[c].w.children;
    var j :| 0 <= j < |ch| && ch[j] in g && (ch[j] == d || Descends(g, rank, ch[j], d));
    assert ch[j] in Kids(g, c);
    assert Par(g, ch[j]) == Some(c);
    if ch[j] != d {
      DescendsToAncestor(g, rank, ch[j], d);
      AncestorThroughParent(g, rank, d, ch[j], c);
    } else {
      assert rank[c] > rank[d];
    }
  }

  /** The search finds every component that has c on its parent chain. */
  lemma {:induction false} AncestorToDescends(g: Shapes, rank: map<Id, nat>, c: Id, d: Id)
    requires ValidShape(g, rank) && c in g && d in g
    requires IsAncestorOf(g, rank, Some(d), Some(c))
    ensures Descends(g, rank, c, d)
    decreases rank[c]
  {
    AnyChildHoldsIff(g, rank, c, d, 0);
    var ch := g[c].w.children;
    var y := ChildOnChain(g, rank, d, c);
    assert Par(g, y) == Some(c);
    assert y in Kids(g, c);
    var j :| 0 <= j < |ch| && ch[j] == y;
    if y != d {
      AncestorToDescends(g, rank, y, d);
    }
    assert ch[j] == d || Descends(g, rank, ch[j], d);
  }

  /** d is below c exactly when c is on d's parent chain, above d. */
  lemma DescendsIffAncestor(g: Shapes, rank: map<Id, nat>, c: Id, d: Id)
    requires ValidShape(g, rank) && c in g && d in g
    ensures Descends(g, rank, c, d) <==> IsAncestorOf(g, rank, Some(d), Some(c))
  {
    if Descends(g, rank, c, d) { DescendsToAncestor(g, rank, c, d); }
    if IsAncestorOf(g, rank, Some(d), Some(c)) { AncestorToDescends(g, rank, c, d); }
  }

  /** If y is above d and c is y's parent, then c is above d. */
  lemma {:induction false} AncestorThroughParent(g: Shapes, rank: map<Id, nat>, d: Id, y: Id, c: Id)
    requires ValidShape(g, rank) && d in g && y in g
    requires IsAncestorOf(g, rank, Some(d), Some(y)) && g[y].w.parent == Some(c)
    ensures IsAncestorOf(g, rank, Some(d), Some(c))
    decreases Above(rank, d)
  {
    var parent := g[d].w.parent;
    if parent == Some(y) {
      assert rank[c] > rank[y] > rank[d];
    } else {
      assert ClimbShrinks(g, rank, d);
      AncestorThroughParent(g, rank, parent.value, y, c);
      AncestorRank(g, rank, parent.value, c);
    }
  }

  /** If c is above d, one child of c is d or above d. */
  lemma {:induction false} ChildOnChain(g: Shapes, rank: map<Id, nat>, d: Id, c: Id) returns (y: Id)
    requires ValidShape(g, rank) && d in g && c in g
    requires IsAncestorOf(g, rank, Some(d), Some(c))
    ensures y in g && g[y].w.parent == Some(c)
    ensures y == d || IsAncestorOf(g, rank, Some(d), Some(y))
    decreases Above(rank, d)
  {
    var parent := g[d].w.parent;
    if parent == Some(c) {
      y := d;
    } else {
      assert ClimbShrinks(g, rank, d);
      y := ChildOnChain(g, rank, parent.value, c);
      if y != parent.value {
        AncestorRank(g, rank, parent.value, y);
      }
    }
  }

  /** An ancestor ranks above every component below it. */
  lemma {:induction false} AncestorRank(g: Shapes, rank: map<Id, nat>, d: Id, a: Id)
    requires Closed(g) && Ranked(g, rank) && d in g
    requires IsAncestorOf(g, rank, Some(d), Some(a))
    ensures a in g && rank[a] > rank[d]
    decreases Above(rank, d)
  {
    var parent := g[d].w.parent;
    if parent != Some(a) {
      assert ClimbShrinks(g, rank, d);
      AncestorRank(g, rank, parent.value, a);
    }
  }

  /** With consistent links, isAncestorOfComponent(d, c) and
      isDescendantOfComponent(c, d) agree on every pair of components and on
      null arguments. */
  lemma AncestorIffDescendant(g: Shapes, rank: map<Id, nat>, c: Option<Id>, d: Option<Id>)
    requires ValidShape(g, rank)
    requires c.Some? ==> c.value in g
    requires d.Some? ==> d.value in g
    ensures IsAncestorOf(g, rank, d, c) <==> IsDescendantOf(g, rank, c, d)
  {
    if c.Some? && d.Some? {
      DescendsIffAncestor(g, rank, c.value, d.value);
    }
  }

  /** No component is its own descendant, so the cycle guard of
      setParentComponent lets a container be added to itself. */
  lemma NotOwnDescendant(g: Shapes, rank: map<Id, nat>, c: Id)
    requires ValidShape(g, rank) && c in g
    ensures !IsDescendantOf(g, rank, Some(c), Some(c))
  {
    AncestorIffDescendant(g, rank, Some(c), Some(c));
  }

  // ---------------------------------------------------------------------------
  // Rewriting the links of one component.

  /** The shapes with component c's links replaced by w. */
  function Rewire(g: Shapes, c: Id, w: Wiring): Shapes
    requires c in g
  {
    g[c := g[c].(w := w)]
  }

  lemma ClosedRewire(g: Shapes, c: Id, w: Wiring)
    requires Closed(g) && c in g && RefsIn(w, g.Keys)
    ensures Closed(Rewire(g, c, w))
  {
  }

  /** The class rules of every other component survive rewiring c, since no class changes. */
  lemma KindsRewire(g: Shapes, c: Id, w: Wiring)
    requires Closed(g) && WellKinded(g) && c in g && RefsIn(w, g.Keys)
    requires KindOk(Rewire(g, c, w), c)
    ensures Closed(Rewire(g, c, w)) && WellKinded(Rewire(g, c, w))
  {
    var g' := Rewire(g, c, w);
    forall y | y in g' ensures KindOk(g', y) {
      if y != c { assert KindOk(g, y); }
    }
  }

  /** Rewiring c's parent or children leaves the connection links alone. */
  lemma LinkedRewire(g: Shapes, c: Id, w: Wiring)
    requires Linked(g) && c in g
    requires w.inbound == g[c].w.inbound && w.outbound == g[c].w.outbound
    requires w.source == g[c].w.source && w.dest == g[c].w.dest
    ensures Linked(Rewire(g, c, w))
  {
    var g' := Rewire(g, c, w);
    forall e: End ensures LinkedEnd(g', e) {
      assert forall y | y in g' :: Listed(g'[y].w, e) == Listed(g[y].w, e) && EndOf(g'[y].w, e) == EndOf(g[y].w, e);
    }
  }

  /** Rewiring c's children or connection lists leaves the parent links and ranks alone. */
  lemma RankedRewire(g: Shapes, rank: map<Id, nat>, c: Id, w: Wiring)
    requires Ranked(g, rank) && c in g && w.parent == g[c].w.parent
    ensures Ranked(Rewire(g, c, w), rank)
  {
  }

  // ---------------------------------------------------------------------------
  // The steps of addComponent and removeComponent.

  /** Giving s a parent that is not on its own subtree, and not a root or
      misplaced handle, leaves the invariant pending at s once x's chain is
      re-ranked. */
  lemma SetParentStep(g: Shapes, rank: map<Id, nat>, c: Id, x: Id)
    requires ValidShape(g, rank) && c in g && x in g
    requires g[c].w.parent.None? && IsContainer(g[x].kind) && !AncestorOrSelf(g, rank, x, c)
    requires !g[c].kind.Root? && (g[c].kind.Handle? ==> g[x].kind.Adjustable?)
    ensures Pending(Rewire(g, c, g[c].w.(parent := Some(x))), Bump(g, rank, x, rank[c] + 1), c)
  {
    var w := g[c].w.(parent := Some(x));
    var g' := Rewire(g, c, w);
    DetachedIsPending(g, rank, c);
    AttachRanked(g, rank, c, x);
    assert g' == g[c := g[c].(w := g[c].w.(parent := Some(x)))];
    KindsRewire(g, c, w);
    LinkedRewire(g, c, w);
    ParentChildSetParent(g, c, x);
  }

  lemma ParentChildSetParent(g: Shapes, c: Id, x: Id)
    requires ParentChildBut(g, c) && c in g
    ensures ParentChildBut(Rewire(g, c, g[c].w.(parent := Some(x))), c)
  {
    var g' := Rewire(g, c, g[c].w.(parent := Some(x)));
    assert forall y | y in g' && y != c :: Par(g', y) == Par(g, y);
    assert forall q | q in g' :: Kids(g', q) == Kids(g, q);
  }

  /** Listing a pending child in its parent's list at any index restores the invariant. */
  lemma InsertChildStep(g: Shapes, rank: map<Id, nat>, c: Id, x: Id, i: nat)
    requires Pending(g, rank, c) && g[c].w.parent == Some(x) && x in g && IsContainer(g[x].kind)
    requires i <= |g[x].w.children|
    ensures ValidShape(Rewire(g, x, g[x].w.(children := InsertAt(g[x].w.children, i, c))), rank)
  {
    var w := g[x].w.(children := InsertAt(g[x].w.children, i, c));
    InsertAtMembers(g[x].w.children, i, c, c);
    assert RefsIn(w, g.Keys) by {
      forall y | y in w.children ensures y in g.Keys {
        InsertAtMembers(g[x].w.children, i, c, y);
      }
    }
    assert KindOk(Rewire(g, x, w), x);
    KindsRewire(g, x, w);
    LinkedRewire(g, x, w);
    RankedRewire(g, rank, x, w);
    ParentChildInsert(g, c, x, i);
  }

  lemma ParentChildInsert(g: Shapes, c: Id, x: Id, i: nat)
    requires ParentChildBut(g, c) && c in g && x in g && g[c].w.parent == Some(x)
    requires i <= |g[x].w.children|
    ensures ParentChild(Rewire(g, x, g[x].w.(children := InsertAt(g[x].w.children, i, c))))
  {
    var ch := g[x].w.children;
    var g' := Rewire(g, x, g[x].w.(children := InsertAt(ch, i, c)));
    assert c !in Kids(g, x);
    InsertAtNoDup(ch, i, c);
    forall y | y in g' ensures y in Kids(g', x) <==> y == c || y in Kids(g, x) {
      InsertAtMembers(ch, i, c, y);
    }
    assert forall q | q in g' && q != x :: Kids(g', q) == Kids(g, q);
    assert forall y | y in g' :: Par(g', y) == Par(g, y);
  }

  /** Taking the entry at index i out of a child list leaves the invariant
      pending at the removed child, whose parent link is still set. */
  lemma RemoveChildStep(g: Shapes, rank: map<Id, nat>, x: Id, i: nat)
    requires ValidShape(g, rank) && x in g && i < |g[x].w.children|
    ensures g[x].w.children[i] in g && g[g[x].w.children[i]].w.parent == Some(x)
    ensures Pending(Rewire(g, x, g[x].w.(children := RemoveAt(g[x].w.children, i))), rank, g[x].w.children[i])
  {
    var ch := g[x].w.children;
    var c := ch[i];
    assert c in Kids(g, x);
    var w := g[x].w.(children := RemoveAt(ch, i));
    assert RefsIn(w, g.Keys) by {
      forall y | y in w.children ensures y in g.Keys {
        RemoveAtMembers(ch, i, y);
      }
    }
    assert KindOk(Rewire(g, x, w), x);
    KindsRewire(g, x, w);
    LinkedRewire(g, x, w);
    RankedRewire(g, rank, x, w);
    ParentChildRemove(g, x, i);
  }

  lemma ParentChildRemove(g: Shapes, x: Id, i: nat)
    requires Closed(g) && ParentChild(g) && x in g && i < |g[x].w.children|
    ensures ParentChildBut(Rewire(g, x, g[x].w.(children := RemoveAt(g[x].w.children, i))), g[x].w.children[i])
  {
    var ch := g[x].w.children;
    var c := ch[i];
    assert c in Kids(g, x);
    var g' := Rewire(g, x, g[x].w.(children := RemoveAt(ch, i)));
    forall y | y in g' ensures y in Kids(g', x) <==> y in Kids(g, x) && y != c {
      RemoveAtMembers(ch, i, y);
    }
    assert forall q | q in g' && q != x :: Kids(g', q) == Kids(g, q);
    assert forall y | y in g' :: Par(g', y) == Par(g, y);
    forall q | q in g' ensures c !in Kids(g', q) {
      assert Par(g, c) == Some(q) <==> c in Kids(g, q);
    }
  }

  /** Clearing the parent link of a pending child restores the invariant. */
  lemma ClearParentStep(g: Shapes, rank: map<Id, nat>, c: Id)
    requires Pending(g, rank, c)
    ensures ValidShape(Rewire(g, c, g[c].w.(parent := None)), rank)
  {
    var w := g[c].w.(parent := None);
    var g' := Rewire(g, c, w);
    assert g' == g[c := g[c].(w := g[c].w.(parent := None))];
    DetachRanked(g, rank, c);
    assert KindOk(g', c);
    KindsRewire(g, c, w);
    LinkedRewire(g, c, w);
    assert forall y | y in g' :: Par(g', y) == if y == c then None else Par(g, y);
    assert forall q | q in g' :: Kids(g', q) == Kids(g, q);
  }
}
