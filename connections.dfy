/**
 * The connection lists of a connected component and the two ends of a
 * connection (AbstractConnectedComponent, AbstractConnection,
 * DefaultConnection). Each side calls the other to keep a connection in the
 * list of the component at its end; the calls stop because the second call
 * finds its work already done, which the `decreases` clauses below prove by a
 * measure read off the state rather than a bound on the depth.
 */
module Connections {
  import opened Outcomes
  import opened Seqs
  import opened Geometry
  import opened Nodes
  import opened Graph
  import opened Walks
  import opened Panels
  import opened Validation
  import opened Layouts

  function Other(e: End): End {
    if e == Source then Dest else Source
  }

  // ---------------------------------------------------------------------------
  // What the field types promise.

  /** A value of a connection's end field: null or a ConnectedComponent. */
  predicate EndTyped(m: Store, r: Option<Id>) {
    r.Some? ==> r.value in m && IsConnectedKind(m[r.value].kind)
  }

  /** The Java field types: every end of a connection is a ConnectedComponent
      and every entry of a connection list is a Connection. */
  ghost predicate Typed(m: Store) {
    (forall c | c in m :: EndTyped(m, m[c].w.source) && EndTyped(m, m[c].w.dest))
    && (forall c | c in m :: ListsHoldConnections(m, c))
  }

  /** The invariant of the component graph implies the field types. */
  lemma ValidIsTyped(m: Store, rank: map<Id, nat>)
    requires ValidShape(ShapeOf(m), rank)
    ensures Typed(m)
  {
    var g := ShapeOf(m);
    forall c | c in m ensures EndTyped(m, m[c].w.source) && EndTyped(m, m[c].w.dest) && ListsHoldConnections(m, c) {
      assert g[c] == Shape(m[c].kind, m[c].w);
      ConnectionListsHoldConnections(m, rank, c);
      forall e: End | EndOf(m[c].w, e).Some? ensures EndTyped(m, EndOf(m[c].w, e)) {
        var y := EndOf(m[c].w, e).value;
        assert y in g && g[y] == Shape(m[y].kind, m[y].w);
        assert c in Listed(g[y].w, e);
        assert KindOk(g, y);
      }
      assert EndOf(m[c].w, Source) == m[c].w.source && EndOf(m[c].w, Dest) == m[c].w.dest;
    }
  }

  // ---------------------------------------------------------------------------
  // The effect on the store.

  /** The store with component c's links replaced by w. */
  function SetW(m: Store, c: Id, w: Wiring): (r: Store)
    requires c in m
    ensures r.Keys == m.Keys
  {
    m[c := m[c].(w := w)]
  }

  /** `list.add(index, k)` on x's e-list (the outbound list for e = Source,
      the inbound list for e = Dest). */
  function ListAt(m: Store, x: Id, e: End, i: nat, k: Id): (r: Store)
    requires x in m && i <= |Listed(m[x].w, e)|
    ensures r.Keys == m.Keys
  {
    SetW(m, x, WithListed(m[x].w, e, InsertAt(Listed(m[x].w, e), i, k)))
  }

  /** What y's removeXConnection(k) does once k no longer points at y: the
      first entry k leaves y's e-list, if there is one. */
  function Unlist(m: Store, y: Id, e: End, k: Id): (r: Store)
    requires y in m
    ensures r.Keys == m.Keys
  {
    if k in Listed(m[y].w, e) then SetW(m, y, WithListed(m[y].w, e, Remove(Listed(m[y].w, e), k))) else m
  }

  /** Assigning connection k's e-end field. */
  function SetEndField(m: Store, k: Id, e: End, v: Option<Id>): (r: Store)
    requires k in m
    ensures r.Keys == m.Keys
  {
    SetW(m, k, WithEnd(m[k].w, e, v))
  }

  /** The old end's removeXConnection(k) once k points elsewhere: k only
      leaves the old end's e-list. */
  function Leave(m: Store, e: End, k: Id, was: Option<Id>): (r: Store)
    ensures r.Keys == m.Keys
  {
    if was.Some? && was.value in m then Unlist(m, was.value, e, k) else m
  }

  /** The new end's addXConnection(k) once k points at it: k is appended
      unless the list holds it already. */
  function Enter(m: Store, e: End, k: Id, v: Option<Id>): (r: Store)
    ensures r.Keys == m.Keys
  {
    if v.Some? && v.value in m && k !in Listed(m[v.value].w, e) then ListAt(m, v.value, e, |Listed(m[v.value].w, e)|, k) else m
  }

  /** What setSourceComponent (e = Source) or setDestinationComponent
      (e = Dest) of connection k does to the links: nothing when the end does
      not change; otherwise the field is assigned first, then the old end
      unlists k and the new end lists it. */
  function Relink(m: Store, k: Id, e: End, v: Option<Id>): (r: Store)
    requires k in m
    ensures r.Keys == m.Keys
  {
    var was := EndOf(m[k].w, e);
    if was == v then m else Enter(Leave(SetEndField(m, k, e, v), e, k, was), e, k, v)
  }

  /** What x.addXConnection(i, k) does to the links for an index in range: a
      listed k is left alone; otherwise k is inserted at i and, unless it
      points at x already, has its end set to x. */
  function Attach(m: Store, x: Id, e: End, i: nat, k: Id): (r: Store)
    requires x in m && k in m && i <= |Listed(m[x].w, e)|
    ensures r.Keys == m.Keys
  {
    if k in Listed(m[x].w, e) then m
    else
      var m1 := ListAt(m, x, e, i, k);
      if EndOf(m1[k].w, e) == Some(x) then m1 else Relink(m1, k, e, Some(x))
  }

  /** What y.removeXConnection(i) does to the links for an index in range:
      the entry leaves the list, and a connection that still points at y has
      its end cleared. */
  function DetachAt(m: Store, y: Id, e: End, i: nat): (r: Store)
    requires y in m && i < |Listed(m[y].w, e)| && Listed(m[y].w, e)[i] in m
    ensures r.Keys == m.Keys
  {
    var l := Listed(m[y].w, e);
    var m1 := SetW(m, y, WithListed(m[y].w, e, RemoveAt(l, i)));
    if EndOf(m1[l[i]].w, e) == Some(y) then Relink(m1, l[i], e, None) else m1
  }

  // ---------------------------------------------------------------------------
  // The effect keeps the invariant.

  lemma ShapeOfSetW(m: Store, c: Id, w: Wiring)
    requires c in m
    ensures ShapeOf(SetW(m, c, w)) == Rewire(ShapeOf(m), c, w)
  {
    ShapeOfWrite(m, c, m[c].(w := w));
    assert ShapeOf(m)[c] == Shape(m[c].kind, m[c].w);
  }

  /** An optional reference as a set. */
  function Opt(r: Option<Id>): set<Id> {
    if r.Some? then {r.value} else {}
  }

  /** LinkedEnd on end e for every connection but k, which sits in the e-lists
      of exactly the components in `at`. */
  predicate LinkedBut(g: Shapes, e: End, k: Id, at: set<Id>) {
    (forall x | x in g :: NoDup(Listed(g[x].w, e)))
    && (forall c, x | c in g && x in g && c != k :: c in Listed(g[x].w, e) <==> EndOf(g[c].w, e) == Some(x))
    && (forall x | x in g :: k in Listed(g[x].w, e) <==> x in at)
  }

  /** The part of the invariant that moving an e-end leaves alone. */
  ghost predicate Frame(g: Shapes, rank: map<Id, nat>, e: End) {
    Closed(g) && WellKinded(g) && Ranked(g, rank) && ParentChild(g) && LinkedEnd(g, Other(e))
  }

  /** The invariant of the component graph while connection k's e-end moves:
      everything holds but the agreement of k's e-end with the e-lists. */
  ghost predicate Moving(g: Shapes, rank: map<Id, nat>, e: End, k: Id, at: set<Id>) {
    k in g && g[k].kind.Connection? && Frame(g, rank, e) && LinkedBut(g, e, k, at)
  }

  lemma StartMoving(g: Shapes, rank: map<Id, nat>, e: End, k: Id)
    requires ValidShape(g, rank) && k in g && g[k].kind.Connection?
    ensures Moving(g, rank, e, k, Opt(EndOf(g[k].w, e)))
  {
    assert e == Source || e == Dest;
  }

  lemma StopMoving(g: Shapes, rank: map<Id, nat>, e: End, k: Id)
    requires k in g && Moving(g, rank, e, k, Opt(EndOf(g[k].w, e)))
    ensures ValidShape(g, rank)
  {
    assert e == Source || e == Dest;
  }

  /** Rewiring c without touching its parent or children keeps ParentChild. */
  lemma ParentChildRewire(g: Shapes, c: Id, w: Wiring)
    requires ParentChild(g) && c in g && w.parent == g[c].w.parent && w.children == g[c].w.children
    ensures ParentChild(Rewire(g, c, w))
  {
    var g' := Rewire(g, c, w);
    assert forall y | y in g :: Par(g', y) == Par(g, y) && Kids(g', y) == Kids(g, y);
  }

  /** Rewiring c without touching its e2-list or e2-end keeps LinkedEnd on e2. */
  lemma OtherRewire(g: Shapes, c: Id, w: Wiring, e2: End)
    requires LinkedEnd(g, e2) && c in g && Listed(w, e2) == Listed(g[c].w, e2) && EndOf(w, e2) == EndOf(g[c].w, e2)
    ensures LinkedEnd(Rewire(g, c, w), e2)
  {
    var g' := Rewire(g, c, w);
    assert forall y | y in g :: Listed(g'[y].w, e2) == Listed(g[y].w, e2) && EndOf(g'[y].w, e2) == EndOf(g[y].w, e2);
  }

  /** Rewiring c on end e only, within the class rules, keeps the frame. */
  lemma FrameRewire(g: Shapes, rank: map<Id, nat>, e: End, c: Id, w: Wiring)
    requires Frame(g, rank, e) && c in g && RefsIn(w, g.Keys) && KindOk(Rewire(g, c, w), c)
    requires w.parent == g[c].w.parent && w.children == g[c].w.children
    requires Listed(w, Other(e)) == Listed(g[c].w, Other(e)) && EndOf(w, Other(e)) == EndOf(g[c].w, Other(e))
    ensures Frame(Rewire(g, c, w), rank, e)
  {
    KindsRewire(g, c, w);
    RankedRewire(g, rank, c, w);
    ParentChildRewire(g, c, w);
    OtherRewire(g, c, w, Other(e));
  }

  /** Assigning connection k's e-end. */
  lemma EndStep(g: Shapes, rank: map<Id, nat>, e: End, k: Id, at: set<Id>, v: Option<Id>)
    requires Moving(g, rank, e, k, at) && (v.Some? ==> v.value in g)
    ensures Moving(Rewire(g, k, WithEnd(g[k].w, e, v)), rank, e, k, at)
  {
    var w := WithEnd(g[k].w, e, v);
    assert RefsIn(w, g.Keys) by {
      assert RefsIn(g[k].w, g.Keys);
      assert e == Source || e == Dest;
    }
    assert KindOk(Rewire(g, k, w), k) by {
      assert KindOk(g, k);
    }
    FrameRewire(g, rank, e, k, w);
    LinkedButEnd(g, e, k, at, v);
  }

  lemma LinkedButEnd(g: Shapes, e: End, k: Id, at: set<Id>, v: Option<Id>)
    requires LinkedBut(g, e, k, at) && k in g
    ensures LinkedBut(Rewire(g, k, WithEnd(g[k].w, e, v)), e, k, at)
  {
    var g' := Rewire(g, k, WithEnd(g[k].w, e, v));
    assert forall y | y in g :: Listed(g'[y].w, e) == Listed(g[y].w, e);
    assert forall y | y in g && y != k :: EndOf(g'[y].w, e) == EndOf(g[y].w, e);
  }

  /** Taking k out of y's e-list. */
  lemma UnlistStep(g: Shapes, rank: map<Id, nat>, e: End, k: Id, at: set<Id>, y: Id)
    requires Moving(g, rank, e, k, at) && y in g
    ensures Moving(Rewire(g, y, WithListed(g[y].w, e, Remove(Listed(g[y].w, e), k))), rank, e, k, at - {y})
  {
    var l := Listed(g[y].w, e);
    var w := WithListed(g[y].w, e, Remove(l, k));
    assert RefsIn(w, g.Keys) by {
      assert RefsIn(g[y].w, g.Keys);
      forall d | d in Remove(l, k) ensures d in g {
        RemoveSubset(l, k, d);
      }
      assert e == Source || e == Dest;
    }
    assert KindOk(Rewire(g, y, w), y) by {
      assert KindOk(g, y);
      assert e == Source || e == Dest;
    }
    FrameRewire(g, rank, e, y, w);
    LinkedButUnlist(g, e, k, at, y);
  }

  lemma LinkedButUnlist(g: Shapes, e: End, k: Id, at: set<Id>, y: Id)
    requires LinkedBut(g, e, k, at) && y in g
    ensures LinkedBut(Rewire(g, y, WithListed(g[y].w, e, Remove(Listed(g[y].w, e), k))), e, k, at - {y})
  {
    var l := Listed(g[y].w, e);
    var g' := Rewire(g, y, WithListed(g[y].w, e, Remove(l, k)));
    assert forall x | x in g && x != y :: Listed(g'[x].w, e) == Listed(g[x].w, e);
    assert forall x | x in g :: EndOf(g'[x].w, e) == EndOf(g[x].w, e);
    forall c ensures c in Listed(g'[y].w, e) <==> c in l && c != k {
      RemoveMembers(l, k, c);
    }
    assert forall x | x in g' :: NoDup(Listed(g'[x].w, e)) by {
      RemoveMembers(l, k, k);
    }
    forall c, x | c in g' && x in g' && c != k
      ensures c in Listed(g'[x].w, e) <==> EndOf(g'[c].w, e) == Some(x)
    {
      assert c in Listed(g[x].w, e) <==> EndOf(g[c].w, e) == Some(x);
    }
    forall x | x in g' ensures k in Listed(g'[x].w, e) <==> x in at - {y} {
      assert k in Listed(g[x].w, e) <==> x in at;
    }
  }

  /** Inserting k at index j of y's e-list, for a connected y that does not list k. */
  lemma ListStep(g: Shapes, rank: map<Id, nat>, e: End, k: Id, at: set<Id>, y: Id, j: nat)
    requires Moving(g, rank, e, k, at) && y in g && IsConnectedKind(g[y].kind) && y !in at
    requires j <= |Listed(g[y].w, e)|
    ensures Moving(Rewire(g, y, WithListed(g[y].w, e, InsertAt(Listed(g[y].w, e), j, k))), rank, e, k, at + {y})
  {
    var l := Listed(g[y].w, e);
    var w := WithListed(g[y].w, e, InsertAt(l, j, k));
    assert RefsIn(w, g.Keys) by {
      assert RefsIn(g[y].w, g.Keys);
      forall d | d in InsertAt(l, j, k) ensures d in g {
        InsertAtMembers(l, j, k, d);
      }
      assert e == Source || e == Dest;
    }
    assert KindOk(Rewire(g, y, w), y) by {
      assert KindOk(g, y);
    }
    FrameRewire(g, rank, e, y, w);
    LinkedButList(g, e, k, at, y, j);
  }

  lemma LinkedButList(g: Shapes, e: End, k: Id, at: set<Id>, y: Id, j: nat)
    requires LinkedBut(g, e, k, at) && y in g && y !in at && j <= |Listed(g[y].w, e)|
    ensures LinkedBut(Rewire(g, y, WithListed(g[y].w, e, InsertAt(Listed(g[y].w, e), j, k))), e, k, at + {y})
  {
    var l := Listed(g[y].w, e);
    var g' := Rewire(g, y, WithListed(g[y].w, e, InsertAt(l, j, k)));
    assert forall x | x in g && x != y :: Listed(g'[x].w, e) == Listed(g[x].w, e);
    assert forall x | x in g :: EndOf(g'[x].w, e) == EndOf(g[x].w, e);
    InsertAtNoDup(l, j, k);
    forall c ensures c in Listed(g'[y].w, e) <==> c in l || c == k {
      InsertAtMembers(l, j, k, c);
    }
  }

  /** In a store whose shape is Moving, k is in y's e-list exactly when y is in `at`. */
  lemma MovingListed(m: Store, rank: map<Id, nat>, e: End, k: Id, at: set<Id>, y: Id)
    requires Moving(ShapeOf(m), rank, e, k, at) && y in m
    ensures k in Listed(m[y].w, e) <==> y in at
  {
    assert ShapeOf(m)[y] == Shape(m[y].kind, m[y].w);
  }

  /** The steps on the store. */
  lemma SetEndFieldMoves(m: Store, rank: map<Id, nat>, e: End, k: Id, at: set<Id>, v: Option<Id>)
    requires Moving(ShapeOf(m), rank, e, k, at) && (v.Some? ==> v.value in m)
    ensures Moving(ShapeOf(SetEndField(m, k, e, v)), rank, e, k, at)
  {
    ShapeOfSetW(m, k, WithEnd(m[k].w, e, v));
    assert ShapeOf(m)[k] == Shape(m[k].kind, m[k].w);
    EndStep(ShapeOf(m), rank, e, k, at, v);
  }

  lemma LeaveMoves(m: Store, rank: map<Id, nat>, e: End, k: Id, at: set<Id>, was: Option<Id>)
    requires Moving(ShapeOf(m), rank, e, k, at)
    ensures Moving(ShapeOf(Leave(m, e, k, was)), rank, e, k, at - Opt(was))
  {
    if was.Some? && was.value in m {
      var y := was.value;
      MovingListed(m, rank, e, k, at, y);
      if k in Listed(m[y].w, e) {
        ShapeOfSetW(m, y, WithListed(m[y].w, e, Remove(Listed(m[y].w, e), k)));
        assert ShapeOf(m)[y] == Shape(m[y].kind, m[y].w);
        UnlistStep(ShapeOf(m), rank, e, k, at, y);
      } else {
        assert at - {y} == at;
      }
    } else if was.Some? {
      assert ShapeOf(m).Keys == m.Keys;
    }
  }

  lemma EnterMoves(m: Store, rank: map<Id, nat>, e: End, k: Id, at: set<Id>, v: Option<Id>)
    requires Moving(ShapeOf(m), rank, e, k, at) && (v.Some? ==> v.value in m && IsConnectedKind(m[v.value].kind))
    ensures Moving(ShapeOf(Enter(m, e, k, v)), rank, e, k, at + Opt(v))
  {
    if v.Some? {
      var y := v.value;
      MovingListed(m, rank, e, k, at, y);
      if k !in Listed(m[y].w, e) {
        ListAtMoves(m, rank, e, k, at, y, |Listed(m[y].w, e)|);
      } else {
        assert at + {y} == at;
      }
    }
  }

  lemma ListAtMoves(m: Store, rank: map<Id, nat>, e: End, k: Id, at: set<Id>, x: Id, i: nat)
    requires Moving(ShapeOf(m), rank, e, k, at) && x in m && IsConnectedKind(m[x].kind) && x !in at
    requires i <= |Listed(m[x].w, e)|
    ensures Moving(ShapeOf(ListAt(m, x, e, i, k)), rank, e, k, at + {x})
  {
    ShapeOfSetW(m, x, WithListed(m[x].w, e, InsertAt(Listed(m[x].w, e), i, k)));
    assert ShapeOf(m)[x] == Shape(m[x].kind, m[x].w);
    ListStep(ShapeOf(m), rank, e, k, at, x, i);
  }

  /** The components each step leaves as they are. */
  lemma SetEndFieldAt(m: Store, k: Id, e: End, v: Option<Id>, z: Id)
    requires k in m && z in m
    ensures z != k ==> SetEndField(m, k, e, v)[z] == m[z]
    ensures z == k ==> SetEndField(m, k, e, v)[z].kind == m[k].kind && EndOf(SetEndField(m, k, e, v)[z].w, e) == v
  {
    assert e == Source || e == Dest;
  }

  lemma LeaveAt(m: Store, e: End, k: Id, was: Option<Id>, z: Id)
    requires z in m && was != Some(z)
    ensures Leave(m, e, k, was)[z] == m[z]
  {
  }

  lemma EnterAt(m: Store, e: End, k: Id, v: Option<Id>, z: Id)
    requires z in m && (v != Some(z) || k in Listed(m[z].w, e))
    ensures Enter(m, e, k, v)[z] == m[z]
  {
  }

  lemma ListAtAt(m: Store, x: Id, e: End, i: nat, k: Id, z: Id)
    requires x in m && z in m && i <= |Listed(m[x].w, e)|
    ensures z != x ==> ListAt(m, x, e, i, k)[z] == m[z]
    ensures z == x ==> ListAt(m, x, e, i, k)[z].kind == m[x].kind && Listed(ListAt(m, x, e, i, k)[z].w, e) == InsertAt(Listed(m[x].w, e), i, k)
  {
    assert e == Source || e == Dest;
  }

  /** The invariant restored once k's e-end and the e-lists agree again. */
  lemma StopMovingAt(m: Store, rank: map<Id, nat>, e: End, k: Id)
    requires k in m && Moving(ShapeOf(m), rank, e, k, Opt(EndOf(m[k].w, e)))
    ensures ValidShape(ShapeOf(m), rank)
    ensures forall x | x in m :: k in Listed(m[x].w, e) <==> EndOf(m[k].w, e) == Some(x)
  {
    assert ShapeOf(m)[k] == Shape(m[k].kind, m[k].w);
    StopMoving(ShapeOf(m), rank, e, k);
    forall x | x in m ensures k in Listed(m[x].w, e) <==> EndOf(m[k].w, e) == Some(x) {
      MovingListed(m, rank, e, k, Opt(EndOf(m[k].w, e)), x);
    }
  }

  lemma StartMovingAt(m: Store, rank: map<Id, nat>, e: End, k: Id)
    requires ValidShape(ShapeOf(m), rank) && k in m && m[k].kind.Connection?
    ensures Moving(ShapeOf(m), rank, e, k, Opt(EndOf(m[k].w, e)))
  {
    assert ShapeOf(m)[k] == Shape(m[k].kind, m[k].w);
    StartMoving(ShapeOf(m), rank, e, k);
  }

  /** A connection's end is a connected component, so never the connection itself. */
  lemma EndOfConnection(m: Store, rank: map<Id, nat>, e: End, k: Id)
    requires ValidShape(ShapeOf(m), rank) && k in m && m[k].kind.Connection?
    ensures EndTyped(m, EndOf(m[k].w, e)) && EndOf(m[k].w, e) != Some(k)
  {
    ValidIsTyped(m, rank);
    assert EndTyped(m, m[k].w.source) && EndTyped(m, m[k].w.dest);
    assert e == Source || e == Dest;
  }

  /** Moving k's e-end to a new v takes k out of the old end's list and
      into v's. */
  lemma RelinkMoves(m: Store, rank: map<Id, nat>, e: End, k: Id, at: set<Id>, v: Option<Id>)
    requires k in m && Moving(ShapeOf(m), rank, e, k, at) && EndOf(m[k].w, e) != v
    requires EndOf(m[k].w, e) != Some(k) && v != Some(k)
    requires v.Some? ==> v.value in m && IsConnectedKind(m[v.value].kind)
    ensures Moving(ShapeOf(Relink(m, k, e, v)), rank, e, k, (at - Opt(EndOf(m[k].w, e))) + Opt(v))
    ensures EndOf(Relink(m, k, e, v)[k].w, e) == v
  {
    var was := EndOf(m[k].w, e);
    var m1 := SetEndField(m, k, e, v);
    var m2 := Leave(m1, e, k, was);
    assert Moving(ShapeOf(m2), rank, e, k, at - Opt(was)) by {
      SetEndFieldMoves(m, rank, e, k, at, v);
      LeaveMoves(m1, rank, e, k, at, was);
    }
    assert m2[k].kind.Connection? && EndOf(m2[k].w, e) == v by {
      SetEndFieldAt(m, k, e, v, k);
      LeaveAt(m1, e, k, was, k);
    }
    assert v.Some? ==> m2[v.value].kind == m[v.value].kind by {
      if v.Some? {
        SetEndFieldAt(m, k, e, v, v.value);
        LeaveAt(m1, e, k, was, v.value);
      }
    }
    EnterMoves(m2, rank, e, k, at - Opt(was), v);
    EnterAt(m2, e, k, v, k);
  }

  /** setSourceComponent(v) / setDestinationComponent(v) from a state that
      keeps the invariant: the invariant still holds, k's end is v, and k is
      listed at v and nowhere else on that end. */
  lemma RelinkKeepsShape(m: Store, rank: map<Id, nat>, k: Id, e: End, v: Option<Id>)
    requires ValidShape(ShapeOf(m), rank) && k in m && m[k].kind.Connection?
    requires v.Some? ==> v.value in m && IsConnectedKind(m[v.value].kind)
    ensures ValidShape(ShapeOf(Relink(m, k, e, v)), rank)
    ensures EndOf(Relink(m, k, e, v)[k].w, e) == v
    ensures forall x | x in m :: k in Listed(Relink(m, k, e, v)[x].w, e) <==> v == Some(x)
  {
    var was := EndOf(m[k].w, e);
    var m' := Relink(m, k, e, v);
    assert Moving(ShapeOf(m'), rank, e, k, Opt(v)) && EndOf(m'[k].w, e) == v by {
      EndOfConnection(m, rank, e, k);
      assert v != Some(k);
      StartMovingAt(m, rank, e, k);
      if was != v {
        RelinkMoves(m, rank, e, k, Opt(was), v);
        OptDrop(was, v);
      }
    }
    StopMovingAt(m', rank, e, k);
  }

  /** Attaching k to x from a Moving state in which k sits where its end
      says. */
  lemma AttachMoves(m: Store, rank: map<Id, nat>, x: Id, e: End, i: nat, k: Id)
    requires k in m && Moving(ShapeOf(m), rank, e, k, Opt(EndOf(m[k].w, e)))
    requires x in m && IsConnectedKind(m[x].kind) && x != k && EndOf(m[k].w, e) != Some(k)
    requires i <= |Listed(m[x].w, e)| && k !in Listed(m[x].w, e)
    ensures Moving(ShapeOf(Attach(m, x, e, i, k)), rank, e, k, {x})
  {
    var was := EndOf(m[k].w, e);
    var m1 := ListAt(m, x, e, i, k);
    ListAtAt(m, x, e, i, k, k);
    ListAtAt(m, x, e, i, k, x);
    assert Attach(m, x, e, i, k) == Relink(m1, k, e, Some(x));
    MovingListed(m, rank, e, k, Opt(was), x);
    ListAtMoves(m, rank, e, k, Opt(was), x, i);
    RelinkMoves(m1, rank, e, k, Opt(was) + {x}, Some(x));
    OptSwap(was, x);
  }

  lemma OptDrop(was: Option<Id>, v: Option<Id>)
    ensures (Opt(was) - Opt(was)) + Opt(v) == Opt(v)
  {
  }

  lemma OptSwap(was: Option<Id>, x: Id)
    requires was != Some(x)
    ensures (Opt(was) + {x} - Opt(was)) + Opt(Some(x)) == {x}
  {
  }

  /** What attaching k to x writes at x and at k. */
  lemma AttachAt(m: Store, x: Id, e: End, i: nat, k: Id)
    requires k in m && x in m && x != k && EndOf(m[k].w, e) != Some(x) && EndOf(m[k].w, e) != Some(k)
    requires i <= |Listed(m[x].w, e)| && k !in Listed(m[x].w, e)
    ensures Listed(Attach(m, x, e, i, k)[x].w, e) == InsertAt(Listed(m[x].w, e), i, k)
    ensures EndOf(Attach(m, x, e, i, k)[k].w, e) == Some(x)
  {
    var was := EndOf(m[k].w, e);
    var m1 := ListAt(m, x, e, i, k);
    ListAtAt(m, x, e, i, k, k);
    ListAtAt(m, x, e, i, k, x);
    var ma := SetEndField(m1, k, e, Some(x));
    var mb := Leave(ma, e, k, was);
    SetEndFieldAt(m1, k, e, Some(x), x);
    SetEndFieldAt(m1, k, e, Some(x), k);
    LeaveAt(ma, e, k, was, x);
    LeaveAt(ma, e, k, was, k);
    InsertAtMembers(Listed(m[x].w, e), i, k, k);
    EnterAt(mb, e, k, Some(x), x);
    EnterAt(mb, e, k, Some(x), k);
  }

  /** x.addXConnection(i, k) from a state that keeps the invariant, for a k
      not in x's list: the invariant still holds, k sits at index i of x's
      list and points at x, and no other component lists it on that end. */
  lemma AttachKeepsShape(m: Store, rank: map<Id, nat>, x: Id, e: End, i: nat, k: Id)
    requires ValidShape(ShapeOf(m), rank) && x in m && IsConnectedKind(m[x].kind)
    requires k in m && m[k].kind.Connection? && i <= |Listed(m[x].w, e)| && k !in Listed(m[x].w, e)
    ensures ValidShape(ShapeOf(Attach(m, x, e, i, k)), rank)
    ensures Listed(Attach(m, x, e, i, k)[x].w, e) == InsertAt(Listed(m[x].w, e), i, k)
    ensures EndOf(Attach(m, x, e, i, k)[k].w, e) == Some(x)
    ensures forall z | z in m && z != x :: k !in Listed(Attach(m, x, e, i, k)[z].w, e)
  {
    var m' := Attach(m, x, e, i, k);
    assert Moving(ShapeOf(m'), rank, e, k, {x}) && Listed(m'[x].w, e) == InsertAt(Listed(m[x].w, e), i, k)
      && EndOf(m'[k].w, e) == Some(x) by {
      EndOfConnection(m, rank, e, k);
      StartMovingAt(m, rank, e, k);
      MovingListed(m, rank, e, k, Opt(EndOf(m[k].w, e)), x);
      AttachMoves(m, rank, x, e, i, k);
      AttachAt(m, x, e, i, k);
    }
    StopMovingAt(m', rank, e, k);
  }

  /** Detaching the i-th entry k of y's list from a Moving state in which k
      sits where its end, y, says. */
  lemma DetachMoves(m: Store, rank: map<Id, nat>, y: Id, e: End, i: nat)
    requires y in m && i < |Listed(m[y].w, e)| && NoDup(Listed(m[y].w, e))
    requires Listed(m[y].w, e)[i] in m && Listed(m[y].w, e)[i] != y
    requires EndOf(m[Listed(m[y].w, e)[i]].w, e) == Some(y)
    requires Moving(ShapeOf(m), rank, e, Listed(m[y].w, e)[i], {y})
    ensures Moving(ShapeOf(DetachAt(m, y, e, i)), rank, e, Listed(m[y].w, e)[i], {})
  {
    var l := Listed(m[y].w, e);
    var k := l[i];
    IndexOfUnique(l, i);
    var m1 := SetW(m, y, WithListed(m[y].w, e, RemoveAt(l, i)));
    assert m1 == Leave(m, e, k, Some(y));
    LeaveAt(m, e, k, Some(y), k);
    assert DetachAt(m, y, e, i) == Relink(m1, k, e, None);
    LeaveMoves(m, rank, e, k, {y}, Some(y));
    OptGone(y);
    RelinkMoves(m1, rank, e, k, {}, None);
  }

  lemma OptGone(y: Id)
    ensures {y} - Opt(Some(y)) == {} && ({} - Opt(Some(y))) + Opt(None) == {}
  {
  }

  /** The i-th entry of y's e-list in a store that keeps the invariant: a
      connection, not y, pointing at y, in a list without repeats. */
  lemma ListedEntry(m: Store, rank: map<Id, nat>, y: Id, e: End, i: nat)
    requires ValidShape(ShapeOf(m), rank) && y in m && i < |Listed(m[y].w, e)|
    ensures Listed(m[y].w, e)[i] in m && m[Listed(m[y].w, e)[i]].kind.Connection?
    ensures Listed(m[y].w, e)[i] != y && NoDup(Listed(m[y].w, e))
    ensures EndOf(m[Listed(m[y].w, e)[i]].w, e) == Some(y)
  {
    var l := Listed(m[y].w, e);
    var k := l[i];
    ValidIsTyped(m, rank);
    ListTyped(m, y, e);
    assert k in l;
    assert ShapeOf(m)[k] == Shape(m[k].kind, m[k].w) && ShapeOf(m)[y] == Shape(m[y].kind, m[y].w);
    assert LinkedEnd(ShapeOf(m), e) by { assert e == Source || e == Dest; }
    AgreeFacts(ShapeOf(m), e, k, y);
  }

  /** What detaching the i-th entry k of y's list writes at y and at k. */
  lemma DetachAtAt(m: Store, y: Id, e: End, i: nat)
    requires y in m && i < |Listed(m[y].w, e)| && NoDup(Listed(m[y].w, e))
    requires Listed(m[y].w, e)[i] in m && Listed(m[y].w, e)[i] != y
    requires EndOf(m[Listed(m[y].w, e)[i]].w, e) == Some(y)
    ensures Listed(DetachAt(m, y, e, i)[y].w, e) == RemoveAt(Listed(m[y].w, e), i)
    ensures EndOf(DetachAt(m, y, e, i)[Listed(m[y].w, e)[i]].w, e) == None
  {
    var l := Listed(m[y].w, e);
    var k := l[i];
    var m1 := SetW(m, y, WithListed(m[y].w, e, RemoveAt(l, i)));
    assert m1[k] == m[k];
    var ma := SetEndField(m1, k, e, None);
    SetEndFieldAt(m1, k, e, None, k);
    SetEndFieldAt(m1, k, e, None, y);
    LeaveAt(ma, e, k, Some(y), k);
    IndexOfUnique(l, i);
    RemoveAtMembers(l, i, k);
    assert Leave(ma, e, k, Some(y))[y] == ma[y];
    EnterAt(Leave(ma, e, k, Some(y)), e, k, None, k);
    EnterAt(Leave(ma, e, k, Some(y)), e, k, None, y);
  }

  /** y.removeXConnection(i) from a state that keeps the invariant: the
      invariant still holds, the entry leaves y's list, and the connection
      removed points nowhere on that end and is listed nowhere. */
  lemma DetachAtKeepsShape(m: Store, rank: map<Id, nat>, y: Id, e: End, i: nat)
    requires ValidShape(ShapeOf(m), rank) && y in m && i < |Listed(m[y].w, e)|
    ensures Listed(m[y].w, e)[i] in m
    ensures ValidShape(ShapeOf(DetachAt(m, y, e, i)), rank)
    ensures Listed(DetachAt(m, y, e, i)[y].w, e) == RemoveAt(Listed(m[y].w, e), i)
    ensures EndOf(DetachAt(m, y, e, i)[Listed(m[y].w, e)[i]].w, e) == None
    ensures forall z | z in m :: Listed(m[y].w, e)[i] !in Listed(DetachAt(m, y, e, i)[z].w, e)
  {
    var l := Listed(m[y].w, e);
    var k := l[i];
    ListedEntry(m, rank, y, e, i);
    var m' := DetachAt(m, y, e, i);
    assert Moving(ShapeOf(m'), rank, e, k, {}) by {
      StartMovingAt(m, rank, e, k);
      DetachMoves(m, rank, y, e, i);
    }
    DetachAtAt(m, y, e, i);
    StopMovingAt(m', rank, e, k);
  }

  /** In a linked graph a listed connection points at the lister. */
  lemma AgreeFacts(g: Shapes, e: End, k: Id, y: Id)
    requires LinkedEnd(g, e) && k in g && y in g && k in Listed(g[y].w, e)
    ensures EndOf(g[k].w, e) == Some(y) && NoDup(Listed(g[y].w, e))
  {
  }

  /** The entries of a connection list, as a Typed store has them. */
  lemma ListTyped(m: Store, c: Id, e: End)
    requires Typed(m) && c in m
    ensures AllConnections(m, Listed(m[c].w, e)) && EndTyped(m, EndOf(m[c].w, e))
  {
    assert ListsHoldConnections(m, c);
  }

  // ---------------------------------------------------------------------------
  // The methods.

  /** The notes fireConnectedComponentEvent leaves: one delivery per connected
      component listener, or none when the notification is off. */
  function ConnectedNotes(n: Node, ev: Event): seq<Note>
  {
    if n.Is(ConnectedNotify) then Deliveries(n.List(ConnectedList), ev) else []
  }

  /** AbstractConnectedComponent.fireConnectedComponentEvent. */
  method FireConnected(s: Scene, c: Id, ev: Event)
    requires c in s.nodes
    modifies s`log
    ensures s.log == old(s.log) + ConnectedNotes(s.nodes[c], ev)
  {
    var n := s.nodes[c];
    if !n.Is(ConnectedNotify) {
      return;
    }
    var ls := n.List(ConnectedList);
    var i := 0;
    while i < |ls|
      invariant 0 <= i <= |ls|
      invariant s.log == old(s.log) + Deliveries(ls[..i], ev)
    {
      assert ls[..i + 1][..i] == ls[..i];
      s.log := s.log + [Heard(ls[i], ev)];
      i := i + 1;
    }
    assert ls[..|ls|] == ls;
  }

  /** Both stores hold the same components, of the same classes. */
  predicate KindsKept(m: Store, m': Store) {
    m'.Keys == m.Keys && forall c | c in m :: m'[c].kind == m[c].kind
  }

  /** A sound scene, as Scene.Sound states it, whose field types hold. */
  ghost predicate Fit(m: Store, gm: Geos, rank: map<Id, nat>) {
    Walkable(m, rank) && AttrRefsOk(m) && gm.Keys == m.Keys && Typed(m)
  }

  /** What every method below keeps: the scene stays sound, the field types
      hold, and no component appears, disappears or changes class. */
  ghost predicate Kept(m0: Store, m: Store, gm: Geos, rank: map<Id, nat>) {
    Fit(m, gm, rank) && KindsKept(m0, m)
  }

  lemma KindsKeptTrans(m0: Store, m1: Store, m2: Store)
    requires KindsKept(m0, m1) && KindsKept(m1, m2)
    ensures KindsKept(m0, m2)
  {
  }

  /** New links for c that keep its parent and refer to stored components
      keep the scene sound. */
  lemma SoundWrite(m: Store, rank: map<Id, nat>, c: Id, w: Wiring)
    requires Walkable(m, rank) && AttrRefsOk(m) && c in m
    requires RefsIn(w, m.Keys) && w.parent == m[c].w.parent
    ensures Walkable(SetW(m, c, w), rank) && AttrRefsOk(SetW(m, c, w)) && KindsKept(m, SetW(m, c, w))
  {
    var m' := SetW(m, c, w);
    ShapeOfSetW(m, c, w);
    assert ShapeOf(m).Keys == m.Keys;
    ClosedRewire(ShapeOf(m), c, w);
    RankedRewire(ShapeOf(m), rank, c, w);
    assert forall d | d in m :: m'[d].kind == m[d].kind && m'[d].a == m[d].a;
  }

  lemma TypedWrite(m: Store, c: Id, w: Wiring)
    requires Typed(m) && c in m
    requires EndTyped(m, w.source) && EndTyped(m, w.dest) && AllConnections(m, w.inbound) && AllConnections(m, w.outbound)
    ensures Typed(SetW(m, c, w))
  {
    var m' := SetW(m, c, w);
    assert forall d | d in m :: m'[d].kind == m[d].kind;
    forall z | z in m'
      ensures EndTyped(m', m'[z].w.source) && EndTyped(m', m'[z].w.dest) && ListsHoldConnections(m', z)
    {
      if z != c {
        assert EndTyped(m, m[z].w.source) && EndTyped(m, m[z].w.dest) && ListsHoldConnections(m, z);
      }
    }
  }

  /** Stores new links for c that keep its parent, refer to stored components
      and respect the field types. */
  method WriteLinks(s: Scene, c: Id, w: Wiring)
    requires Fit(s.nodes, s.geo, s.rank) && c in s.nodes
    requires RefsIn(w, s.nodes.Keys) && w.parent == s.nodes[c].w.parent
    requires EndTyped(s.nodes, w.source) && EndTyped(s.nodes, w.dest)
    requires AllConnections(s.nodes, w.inbound) && AllConnections(s.nodes, w.outbound)
    modifies s`nodes
    ensures Kept(old(s.nodes), s.nodes, s.geo, s.rank) && old(s.log) <= s.log && s.nodes == SetW(old(s.nodes), c, w)
  {
    SoundWrite(s.nodes, s.rank, c, w);
    TypedWrite(s.nodes, c, w);
    s.nodes := SetW(s.nodes, c, w);
  }

  /** The links of a stored component refer to stored components. */
  lemma RefsStored(m: Store, rank: map<Id, nat>, c: Id)
    requires Walkable(m, rank) && c in m
    ensures RefsIn(m[c].w, m.Keys)
  {
    assert ShapeOf(m)[c] == Shape(m[c].kind, m[c].w);
  }

  /** The wiring of c with its e-list replaced by one of connections, as
      WriteLinks accepts it. */
  lemma ListWritable(m: Store, rank: map<Id, nat>, c: Id, e: End, l: seq<Id>)
    requires Walkable(m, rank) && Typed(m) && c in m && AllConnections(m, l)
    ensures RefsIn(WithListed(m[c].w, e, l), m.Keys)
    ensures EndTyped(m, WithListed(m[c].w, e, l).source) && EndTyped(m, WithListed(m[c].w, e, l).dest)
    ensures AllConnections(m, WithListed(m[c].w, e, l).inbound) && AllConnections(m, WithListed(m[c].w, e, l).outbound)
  {
    RefsStored(m, rank, c);
    ListTyped(m, c, Source);
    ListTyped(m, c, Dest);
    assert e == Source || e == Dest;
  }

  /** The wiring of connection k with its e-end replaced by a null or
      connected v, as WriteLinks accepts it. */
  lemma EndWritable(m: Store, rank: map<Id, nat>, k: Id, e: End, v: Option<Id>)
    requires Walkable(m, rank) && Typed(m) && k in m && EndTyped(m, v)
    ensures RefsIn(WithEnd(m[k].w, e, v), m.Keys)
    ensures EndTyped(m, WithEnd(m[k].w, e, v).source) && EndTyped(m, WithEnd(m[k].w, e, v).dest)
    ensures AllConnections(m, WithEnd(m[k].w, e, v).inbound) && AllConnections(m, WithEnd(m[k].w, e, v).outbound)
  {
    RefsStored(m, rank, k);
    ListTyped(m, k, Source);
    ListTyped(m, k, Dest);
    assert e == Source || e == Dest;
  }

  /** The repaint() notes of component c: a repaint of its preferred bounds. */
  function SelfRepaint(m: Store, gm: Geos, ghost rank: map<Id, nat>, c: Id): seq<Note>
    requires Walkable(m, rank) && c in m
  {
    RepaintNotes(m, gm, rank, c, PreferredBounds(m[c], GeoOf(gm, c)))
  }

  /** The end of addXConnection and removeXConnection once the list changed:
      the connected component event, then repaint(). */
  method Announce(s: Scene, x: Id, ev: Event)
    requires s.Sound() && x in s.nodes
    modifies s`log
    ensures s.log == old(s.log) + (ConnectedNotes(s.nodes[x], ev) + SelfRepaint(s.nodes, s.geo, s.rank, x))
    ensures EndsWith(s.log, ConnectedNotes(s.nodes[x], ev) + SelfRepaint(s.nodes, s.geo, s.rank, x))
  {
    FireConnected(s, x, ev);
    Repaint(s, x, PreferredBounds(s.nodes[x], GeoOf(s.geo, x)));
    EndsWithAppend(old(s.log), ConnectedNotes(s.nodes[x], ev) + SelfRepaint(s.nodes, s.geo, s.rank, x));
  }

  lemma EndsWithAppend(l: seq<Note>, t: seq<Note>)
    ensures EndsWith(l + t, t)
  {
    assert (l + t)[|l|..] == t;
  }

  /** Whether a call reaches back into setSourceComponent or
      setDestinationComponent: the measure of the mutual recursion below. */
  function Reenters(m: Store, y: Id, e: End, k: Option<Id>): bool {
    k.Some? && k.value in m && EndOf(m[k.value].w, e) == Some(y)
  }

  function EntryAt(m: Store, y: Id, e: End, i: int): Option<Id> {
    if y in m && 0 <= i < |Listed(m[y].w, e)| then Some(Listed(m[y].w, e)[i]) else None
  }

  /** Attach as its two steps: the insertion, then the end's assignment
      unless k points at x already. */
  lemma AttachSplit(m: Store, x: Id, e: End, i: nat, k: Id, m1: Store)
    requires x in m && k in m && k != x && i <= |Listed(m[x].w, e)| && k !in Listed(m[x].w, e)
    requires m1 == ListAt(m, x, e, i, k)
    ensures m1[k] == m[k]
    ensures EndOf(m[k].w, e) == Some(x) ==> Attach(m, x, e, i, k) == m1
    ensures EndOf(m[k].w, e) != Some(x) ==> Attach(m, x, e, i, k) == Relink(m1, k, e, Some(x))
  {
  }

  /** DetachAt as its two steps: the removal from the list, then the end's
      clearing if the entry still points at y. */
  lemma DetachSplit(m: Store, y: Id, e: End, i: nat, k: Id, m1: Store)
    requires y in m && i < |Listed(m[y].w, e)| && k == Listed(m[y].w, e)[i] && k in m && k != y
    requires m1 == SetW(m, y, WithListed(m[y].w, e, RemoveAt(Listed(m[y].w, e), i)))
    ensures m1[k] == m[k]
    ensures EndOf(m[k].w, e) == Some(y) ==> DetachAt(m, y, e, i) == Relink(m1, k, e, None)
    ensures EndOf(m[k].w, e) != Some(y) ==> DetachAt(m, y, e, i) == m1
  {
  }

  /** addInboundConnection(index, k) (e = Dest) and
      addOutboundConnection(index, k) (e = Source) on x. */
  method AddConnection(s: Scene, v: View, x: Id, e: End, i: int, k: Option<Id>, fuel: nat) returns (o: Outcome)
    requires Fit(s.nodes, s.geo, s.rank) && x in s.nodes && IsConnectedKind(s.nodes[x].kind)
    requires k.Some? ==> k.value in s.nodes && s.nodes[k.value].kind.Connection?
    modifies s`nodes, s`geo, s`valid, s`log
    ensures Kept(old(s.nodes), s.nodes, s.geo, s.rank) && old(s.log) <= s.log
    ensures k.None? ==> o == Thrown(IllegalArgument) && unchanged(s)
    ensures k.Some? && k.value in old(Listed(s.nodes[x].w, e)) ==>
      o == Normal && unchanged(s`nodes, s`geo, s`valid) && s.log == old(s.log) + SelfRepaint(s.nodes, s.geo, s.rank, x)
    ensures k.Some? && k.value !in old(Listed(s.nodes[x].w, e)) && !(0 <= i <= old(|Listed(s.nodes[x].w, e)|)) ==>
      o == Thrown(IndexOutOfBounds) && unchanged(s)
    ensures k.Some? && k.value !in old(Listed(s.nodes[x].w, e)) && 0 <= i <= old(|Listed(s.nodes[x].w, e)|) ==>
      s.nodes == Attach(old(s.nodes), x, e, i, k.value)
      && (o.Normal? ==> EndsWith(s.log, ConnectedNotes(s.nodes[x], ConnectedEv(x, Added, e, k.value)) + SelfRepaint(s.nodes, s.geo, s.rank, x)))
    ensures k.Some? && 0 <= i <= old(|Listed(s.nodes[x].w, e)|) && old(EndOf(s.nodes[k.value].w, e)) == Some(x) ==>
      o == Normal && unchanged(s`geo, s`valid)
    decreases if !Reenters(s.nodes, x, e, k) && k.Some? then 3 else 0, 6
  {
    if k.None? {
      return Thrown(IllegalArgument);
    }
    var l := Listed(s.nodes[x].w, e);
    if k.value in l {
      Repaint(s, x, PreferredBounds(s.nodes[x], GeoOf(s.geo, x)));
      return Normal;
    }
    if !(0 <= i <= |l|) {
      return Thrown(IndexOutOfBounds);
    }
    o := InsertConnection(s, v, x, e, i, k.value, fuel);
  }

  /** The part of addXConnection(index, k) past its checks: k goes into the
      list at the index, is pointed at x unless it already is, and the
      change is announced. */
  method InsertConnection(s: Scene, v: View, x: Id, e: End, i: nat, c: Id, fuel: nat) returns (o: Outcome)
    requires Fit(s.nodes, s.geo, s.rank) && x in s.nodes && IsConnectedKind(s.nodes[x].kind)
    requires c in s.nodes && s.nodes[c].kind.Connection?
    requires c !in Listed(s.nodes[x].w, e) && i <= |Listed(s.nodes[x].w, e)|
    modifies s`nodes, s`geo, s`valid, s`log
    ensures Kept(old(s.nodes), s.nodes, s.geo, s.rank) && old(s.log) <= s.log
    ensures s.nodes == Attach(old(s.nodes), x, e, i, c)
    ensures o.Normal? ==> EndsWith(s.log, ConnectedNotes(s.nodes[x], ConnectedEv(x, Added, e, c)) + SelfRepaint(s.nodes, s.geo, s.rank, x))
    ensures old(EndOf(s.nodes[c].w, e)) == Some(x) ==> o == Normal && unchanged(s`geo, s`valid)
    decreases if !Reenters(s.nodes, x, e, Some(c)) then 3 else 0, 5
  {
    o := LinkIn(s, v, x, e, i, c, fuel);
    if o.Normal? {
      ghost var l2 := s.log;
      Announce(s, x, ConnectedEv(x, Added, e, c));
      PrefixTrans(old(s.log), l2, s.log);
    }
  }

  /** The links addXConnection(index, k) leaves before it announces: k in the
      list at the index, and pointed at x. */
  method LinkIn(s: Scene, v: View, x: Id, e: End, i: nat, c: Id, fuel: nat) returns (o: Outcome)
    requires Fit(s.nodes, s.geo, s.rank) && x in s.nodes && IsConnectedKind(s.nodes[x].kind)
    requires c in s.nodes && s.nodes[c].kind.Connection?
    requires c !in Listed(s.nodes[x].w, e) && i <= |Listed(s.nodes[x].w, e)|
    modifies s`nodes, s`geo, s`valid, s`log
    ensures Kept(old(s.nodes), s.nodes, s.geo, s.rank) && old(s.log) <= s.log
    ensures s.nodes == Attach(old(s.nodes), x, e, i, c)
    ensures old(EndOf(s.nodes[c].w, e)) == Some(x) ==> o == Normal && unchanged(s`geo, s`valid)
    decreases if !Reenters(s.nodes, x, e, Some(c)) then 3 else 0, 4
  {
    ghost var m0 := s.nodes;
    ListIn(s, x, e, i, c);
    ghost var m1 := s.nodes;
    o := RepointIf(s, v, c, e, EndOf(s.nodes[c].w, e) != Some(x), Some(x), fuel);
    KindsKeptTrans(m0, m1, s.nodes);
  }

  /** The insertion of c into the e-list of x at index i, which leaves c as
      it is. */
  method ListIn(s: Scene, x: Id, e: End, i: nat, c: Id)
    requires Fit(s.nodes, s.geo, s.rank) && x in s.nodes && IsConnectedKind(s.nodes[x].kind)
    requires c in s.nodes && s.nodes[c].kind.Connection?
    requires c !in Listed(s.nodes[x].w, e) && i <= |Listed(s.nodes[x].w, e)|
    modifies s`nodes
    ensures Kept(old(s.nodes), s.nodes, s.geo, s.rank) && s.nodes == ListAt(old(s.nodes), x, e, i, c)
    ensures s.nodes[c] == old(s.nodes[c]) && IsConnectedKind(s.nodes[x].kind)
    ensures EndOf(s.nodes[c].w, e) == Some(x) ==> Attach(old(s.nodes), x, e, i, c) == s.nodes
    ensures EndOf(s.nodes[c].w, e) != Some(x) ==> Attach(old(s.nodes), x, e, i, c) == Relink(s.nodes, c, e, Some(x))
  {
    var l := Listed(s.nodes[x].w, e);
    assert AllConnections(s.nodes, InsertAt(l, i, c)) by {
      ListTyped(s.nodes, x, e);
      forall d | d in InsertAt(l, i, c) ensures d in s.nodes && s.nodes[d].kind.Connection? {
        InsertAtMembers(l, i, c, d);
      }
    }
    ListWritable(s.nodes, s.rank, x, e, InsertAt(l, i, c));
    assert c != x;
    ghost var m0 := s.nodes;
    WriteLinks(s, x, WithListed(s.nodes[x].w, e, InsertAt(l, i, c)));
    AttachSplit(m0, x, e, i, c, s.nodes);
  }

  /** addInboundConnection(k) and addOutboundConnection(k): the add at the
      end of the list. */
  method AppendConnection(s: Scene, v: View, x: Id, e: End, k: Option<Id>, fuel: nat) returns (o: Outcome)
    requires Fit(s.nodes, s.geo, s.rank) && x in s.nodes && IsConnectedKind(s.nodes[x].kind)
    requires k.Some? ==> k.value in s.nodes && s.nodes[k.value].kind.Connection?
    modifies s`nodes, s`geo, s`valid, s`log
    ensures Kept(old(s.nodes), s.nodes, s.geo, s.rank) && old(s.log) <= s.log
    ensures k.None? ==> o == Thrown(IllegalArgument) && unchanged(s)
    ensures k.Some? && k.value in old(Listed(s.nodes[x].w, e)) ==> o == Normal && unchanged(s`nodes, s`geo, s`valid)
    ensures k.Some? && k.value !in old(Listed(s.nodes[x].w, e)) ==>
      s.nodes == Attach(old(s.nodes), x, e, old(|Listed(s.nodes[x].w, e)|), k.value)
    ensures k.Some? && old(EndOf(s.nodes[k.value].w, e)) == Some(x) ==> o == Normal && unchanged(s`geo, s`valid)
    decreases if !Reenters(s.nodes, x, e, k) && k.Some? then 3 else 0, 7
  {
    o := AddConnection(s, v, x, e, |Listed(s.nodes[x].w, e)|, k, fuel);
  }

  /** removeInboundConnection(index) (e = Dest) and
      removeOutboundConnection(index) (e = Source) on y. */
  method RemoveConnectionAt(s: Scene, v: View, y: Id, e: End, i: int, fuel: nat) returns (o: Outcome)
    requires Fit(s.nodes, s.geo, s.rank) && y in s.nodes && IsConnectedKind(s.nodes[y].kind)
    modifies s`nodes, s`geo, s`valid, s`log
    ensures Kept(old(s.nodes), s.nodes, s.geo, s.rank) && old(s.log) <= s.log
    ensures !(0 <= i < old(|Listed(s.nodes[y].w, e)|)) ==> o == Thrown(IndexOutOfBounds) && unchanged(s)
    ensures 0 <= i < old(|Listed(s.nodes[y].w, e)|) ==>
      old(Listed(s.nodes[y].w, e)[i]) in old(s.nodes) && s.nodes == DetachAt(old(s.nodes), y, e, i)
      && (o.Normal? ==> EndsWith(s.log, ConnectedNotes(s.nodes[y], ConnectedEv(y, Removed, e, old(Listed(s.nodes[y].w, e)[i])))
                                        + SelfRepaint(s.nodes, s.geo, s.rank, y)))
    ensures 0 <= i < old(|Listed(s.nodes[y].w, e)|) && old(EndOf(s.nodes[Listed(s.nodes[y].w, e)[i]].w, e)) != Some(y) ==>
      o == Normal && unchanged(s`geo, s`valid)
    decreases if Reenters(s.nodes, y, e, EntryAt(s.nodes, y, e, i)) then 3 else 0, 6
  {
    var l := Listed(s.nodes[y].w, e);
    if !(0 <= i < |l|) {
      return Thrown(IndexOutOfBounds);
    }
    var k := l[i];
    assert k in s.nodes && s.nodes[k].kind.Connection? by {
      ListTyped(s.nodes, y, e);
      assert k in l;
    }
    o := DropConnection(s, v, y, e, i, k, fuel);
  }

  /** The part of removeXConnection(index) past its check: the entry leaves
      the list, its end is nulled if it still points at y, and the change is
      announced. */
  method DropConnection(s: Scene, v: View, y: Id, e: End, i: nat, k: Id, fuel: nat) returns (o: Outcome)
    requires Fit(s.nodes, s.geo, s.rank) && y in s.nodes && IsConnectedKind(s.nodes[y].kind)
    requires i < |Listed(s.nodes[y].w, e)| && k == Listed(s.nodes[y].w, e)[i]
    requires k in s.nodes && s.nodes[k].kind.Connection?
    modifies s`nodes, s`geo, s`valid, s`log
    ensures Kept(old(s.nodes), s.nodes, s.geo, s.rank) && old(s.log) <= s.log
    ensures s.nodes == DetachAt(old(s.nodes), y, e, i)
    ensures o.Normal? ==> EndsWith(s.log, ConnectedNotes(s.nodes[y], ConnectedEv(y, Removed, e, k)) + SelfRepaint(s.nodes, s.geo, s.rank, y))
    ensures old(EndOf(s.nodes[k].w, e)) != Some(y) ==> o == Normal && unchanged(s`geo, s`valid)
    decreases if Reenters(s.nodes, y, e, Some(k)) then 3 else 0, 5
  {
    o := LinkOut(s, v, y, e, i, k, fuel);
    if o.Normal? {
      ghost var l2 := s.log;
      Announce(s, y, ConnectedEv(y, Removed, e, k));
      PrefixTrans(old(s.log), l2, s.log);
    }
  }

  /** The links removeXConnection(index) leaves before it announces: the
      entry out of the list, and its end nulled if it pointed at y. */
  method LinkOut(s: Scene, v: View, y: Id, e: End, i: nat, k: Id, fuel: nat) returns (o: Outcome)
    requires Fit(s.nodes, s.geo, s.rank) && y in s.nodes && IsConnectedKind(s.nodes[y].kind)
    requires i < |Listed(s.nodes[y].w, e)| && k == Listed(s.nodes[y].w, e)[i]
    requires k in s.nodes && s.nodes[k].kind.Connection?
    modifies s`nodes, s`geo, s`valid, s`log
    ensures Kept(old(s.nodes), s.nodes, s.geo, s.rank) && old(s.log) <= s.log
    ensures s.nodes == DetachAt(old(s.nodes), y, e, i)
    ensures old(EndOf(s.nodes[k].w, e)) != Some(y) ==> o == Normal && unchanged(s`geo, s`valid)
    decreases if Reenters(s.nodes, y, e, Some(k)) then 3 else 0, 4
  {
    ghost var m0 := s.nodes;
    ListOut(s, y, e, i, k);
    ghost var m1 := s.nodes;
    o := RepointIf(s, v, k, e, EndOf(s.nodes[k].w, e) == Some(y), None, fuel);
    KindsKeptTrans(m0, m1, s.nodes);
  }

  /** The removal of entry i, which is k, from the e-list of y, which leaves
      k as it is. */
  method ListOut(s: Scene, y: Id, e: End, i: nat, k: Id)
    requires Fit(s.nodes, s.geo, s.rank) && y in s.nodes && IsConnectedKind(s.nodes[y].kind)
    requires i < |Listed(s.nodes[y].w, e)| && k == Listed(s.nodes[y].w, e)[i]
    requires k in s.nodes && s.nodes[k].kind.Connection?
    modifies s`nodes
    ensures Kept(old(s.nodes), s.nodes, s.geo, s.rank)
    ensures s.nodes == SetW(old(s.nodes), y, WithListed(old(s.nodes[y].w), e, RemoveAt(old(Listed(s.nodes[y].w, e)), i)))
    ensures s.nodes[k] == old(s.nodes[k]) && IsConnectedKind(s.nodes[y].kind)
    ensures EndOf(s.nodes[k].w, e) == Some(y) ==> DetachAt(old(s.nodes), y, e, i) == Relink(s.nodes, k, e, None)
    ensures EndOf(s.nodes[k].w, e) != Some(y) ==> DetachAt(old(s.nodes), y, e, i) == s.nodes
  {
    var l := Listed(s.nodes[y].w, e);
    assert AllConnections(s.nodes, RemoveAt(l, i)) by {
      ListTyped(s.nodes, y, e);
      forall d | d in RemoveAt(l, i) ensures d in s.nodes && s.nodes[d].kind.Connection? {
        RemoveAtSubset(l, i, d);
      }
    }
    ListWritable(s.nodes, s.rank, y, e, RemoveAt(l, i));
    assert k != y;
    ghost var m0 := s.nodes;
    WriteLinks(s, y, WithListed(s.nodes[y].w, e, RemoveAt(l, i)));
    DetachSplit(m0, y, e, i, k, s.nodes);
  }

  /** `if (b) k.setXComponent(to)`, the guarded call by which addXConnection
      and removeXConnection bring k's end in line with the list. */
  method RepointIf(s: Scene, v: View, k: Id, e: End, b: bool, to: Option<Id>, fuel: nat) returns (o: Outcome)
    requires Fit(s.nodes, s.geo, s.rank) && k in s.nodes && s.nodes[k].kind.Connection?
    requires EndTyped(s.nodes, to)
    modifies s`nodes, s`geo, s`valid, s`log
    ensures Kept(old(s.nodes), s.nodes, s.geo, s.rank) && old(s.log) <= s.log
    ensures !b ==> o == Normal && unchanged(s)
    ensures b ==> s.nodes == Relink(old(s.nodes), k, e, to)
    decreases if b then 2 else 0, 3
  {
    o := Normal;
    if b {
      o := Repoint(s, v, k, e, to, fuel);
    }
  }

  /** removeInboundConnection(k) and removeOutboundConnection(k) on y: null
      and an unlisted k are ignored; otherwise the first entry k is removed
      by index. */
  method RemoveConnection(s: Scene, v: View, y: Id, e: End, k: Option<Id>, fuel: nat) returns (o: Outcome)
    requires Fit(s.nodes, s.geo, s.rank) && y in s.nodes && IsConnectedKind(s.nodes[y].kind)
    requires k.Some? ==> k.value in s.nodes && s.nodes[k.value].kind.Connection?
    modifies s`nodes, s`geo, s`valid, s`log
    ensures Kept(old(s.nodes), s.nodes, s.geo, s.rank) && old(s.log) <= s.log
    ensures k.None? || k.value !in old(Listed(s.nodes[y].w, e)) ==> o == Normal && unchanged(s)
    ensures k.Some? && k.value in old(Listed(s.nodes[y].w, e)) ==>
      s.nodes == DetachAt(old(s.nodes), y, e, IndexOf(old(Listed(s.nodes[y].w, e)), k.value))
      && (o.Normal? ==> EndsWith(s.log, ConnectedNotes(s.nodes[y], ConnectedEv(y, Removed, e, k.value)) + SelfRepaint(s.nodes, s.geo, s.rank, y)))
    ensures k.Some? && old(EndOf(s.nodes[k.value].w, e)) != Some(y) ==> o == Normal && unchanged(s`geo, s`valid)
    decreases if Reenters(s.nodes, y, e, k) then 4 else 1, 0
  {
    if k.None? {
      return Normal;
    }
    var idx := IndexOf(Listed(s.nodes[y].w, e), k.value);
    if idx > -1 {
      o := RemoveConnectionAt(s, v, y, e, idx, fuel);
    } else {
      o := Normal;
    }
  }

  /** Removing k from a list it sits in, once k points elsewhere, is its
      removal from that list. */
  lemma DetachIsLeave(m: Store, y: Id, e: End, k: Id)
    requires y in m && k in m && k != y && EndOf(m[k].w, e) != Some(y) && k in Listed(m[y].w, e)
    ensures 0 <= IndexOf(Listed(m[y].w, e), k) && Listed(m[y].w, e)[IndexOf(Listed(m[y].w, e), k)] in m
    ensures DetachAt(m, y, e, IndexOf(Listed(m[y].w, e), k)) == Leave(m, e, k, Some(y))
  {
    var l := Listed(m[y].w, e);
    var i := IndexOf(l, k);
    var m1 := SetW(m, y, WithListed(m[y].w, e, RemoveAt(l, i)));
    assert m1[k] == m[k];
  }

  /** Appending k to a list it is not in, once k points at the lister, is
      its entry into that list. */
  lemma AttachIsEnter(m: Store, x: Id, e: End, k: Id)
    requires x in m && k in m && k != x && EndOf(m[k].w, e) == Some(x) && k !in Listed(m[x].w, e)
    ensures Attach(m, x, e, |Listed(m[x].w, e)|, k) == Enter(m, e, k, Some(x))
  {
    var m1 := ListAt(m, x, e, |Listed(m[x].w, e)|, k);
    assert m1[k] == m[k];
  }

  /** The old end's removeXConnection(k) inside setXComponent, once k points
      elsewhere: k leaves the old end's list and nothing is thrown. */
  method Unhook(s: Scene, v: View, y: Id, e: End, k: Id, fuel: nat)
    requires Fit(s.nodes, s.geo, s.rank) && y in s.nodes && IsConnectedKind(s.nodes[y].kind)
    requires k in s.nodes && s.nodes[k].kind.Connection? && EndOf(s.nodes[k].w, e) != Some(y)
    modifies s`nodes, s`geo, s`valid, s`log
    ensures Kept(old(s.nodes), s.nodes, s.geo, s.rank) && old(s.log) <= s.log && s.nodes == Leave(old(s.nodes), e, k, Some(y))
    decreases 1, 1
  {
    ghost var m := s.nodes;
    assert k != y;
    if k in Listed(m[y].w, e) {
      DetachIsLeave(m, y, e, k);
    }
    var o := RemoveConnection(s, v, y, e, Some(k), fuel);
    assert o.Normal?;
  }

  /** The new end's addXConnection(k) inside setXComponent, once k points at
      it: k enters the new end's list and nothing is thrown. */
  method Hook(s: Scene, v: View, x: Id, e: End, k: Id, fuel: nat)
    requires Fit(s.nodes, s.geo, s.rank) && x in s.nodes && IsConnectedKind(s.nodes[x].kind)
    requires k in s.nodes && s.nodes[k].kind.Connection? && EndOf(s.nodes[k].w, e) == Some(x)
    modifies s`nodes, s`geo, s`valid, s`log
    ensures Kept(old(s.nodes), s.nodes, s.geo, s.rank) && old(s.log) <= s.log && s.nodes == Enter(old(s.nodes), e, k, Some(x))
    decreases 0, 8
  {
    ghost var m := s.nodes;
    assert k != x;
    if k !in Listed(m[x].w, e) {
      AttachIsEnter(m, x, e, k);
    }
    var o := AppendConnection(s, v, x, e, Some(k), fuel);
    assert o.Normal?;
  }

  /** The AbstractConnection part of setSourceComponent and
      setDestinationComponent for a new end: the field first, then the old
      end's removeXConnection(k), then the new end's addXConnection(k).
      Neither call throws, because each finds k already pointing away from,
      or at, its component. */
  method MoveEnd(s: Scene, v: View, k: Id, e: End, to: Option<Id>, fuel: nat)
    requires Fit(s.nodes, s.geo, s.rank) && k in s.nodes && s.nodes[k].kind.Connection?
    requires EndTyped(s.nodes, to) && EndOf(s.nodes[k].w, e) != to
    modifies s`nodes, s`geo, s`valid, s`log
    ensures Kept(old(s.nodes), s.nodes, s.geo, s.rank) && old(s.log) <= s.log && s.nodes == Relink(old(s.nodes), k, e, to)
    decreases 2, 0
  {
    var was := EndOf(s.nodes[k].w, e);
    ghost var m0 := s.nodes;
    assert EndTyped(s.nodes, was) by {
      ListTyped(s.nodes, k, e);
    }
    assert was != Some(k) && to != Some(k);
    EndWritable(s.nodes, s.rank, k, e, to);
    WriteLinks(s, k, WithEnd(s.nodes[k].w, e, to));
    ghost var m1, l1 := s.nodes, s.log;
    assert m1 == SetEndField(m0, k, e, to);
    SetEndFieldAt(m0, k, e, to, k);
    if was.Some? {
      Unhook(s, v, was.value, e, k, fuel);
    }
    ghost var m2, l2 := s.nodes, s.log;
    assert m2 == Leave(m1, e, k, was);
    LeaveAt(m1, e, k, was, k);
    KindsKeptTrans(m0, m1, m2);
    PrefixTrans(old(s.log), l1, l2);
    if to.Some? {
      Hook(s, v, to.value, e, k, fuel);
    }
    KindsKeptTrans(m0, m2, s.nodes);
    PrefixTrans(old(s.log), l2, s.log);
  }

  /** setXComponent(to) as addXConnection and removeXConnection call it:
      only its effect on the links is used there. */
  method Repoint(s: Scene, v: View, k: Id, e: End, to: Option<Id>, fuel: nat) returns (o: Outcome)
    requires Fit(s.nodes, s.geo, s.rank) && k in s.nodes && s.nodes[k].kind.Connection?
    requires EndTyped(s.nodes, to)
    modifies s`nodes, s`geo, s`valid, s`log
    ensures Kept(old(s.nodes), s.nodes, s.geo, s.rank) && old(s.log) <= s.log && s.nodes == Relink(old(s.nodes), k, e, to)
    decreases 2, 2
  {
    o := SetEnd(s, v, k, e, to, fuel);
  }

  /** setSourceComponent(to) (e = Source) and setDestinationComponent(to)
      (e = Dest) of DefaultConnection k: the AbstractConnection part relinks
      and fires the change, and then the connection revalidates and
      repaints. */
  method SetEnd(s: Scene, v: View, k: Id, e: End, to: Option<Id>, fuel: nat) returns (o: Outcome)
    requires Fit(s.nodes, s.geo, s.rank) && k in s.nodes && s.nodes[k].kind.Connection?
    requires EndTyped(s.nodes, to)
    modifies s`nodes, s`geo, s`valid, s`log
    ensures Kept(old(s.nodes), s.nodes, s.geo, s.rank) && old(s.log) <= s.log && s.nodes == Relink(old(s.nodes), k, e, to)
    ensures old(EndOf(s.nodes[k].w, e)) == to ==> o == Normal && unchanged(s)
    ensures old(EndOf(s.nodes[k].w, e)) != to && o.Normal? ==>
      (k in s.valid <==> !MissingEnd(s.nodes[k]))
      && Changed(k, EndProp(e)) in s.log[|old(s.log)|..]
      && EndsWith(s.log, SelfRepaint(s.nodes, s.geo, s.rank, k))
    decreases 2, 1
  {
    if EndOf(s.nodes[k].w, e) == to {
      return Normal;
    }
    MoveEnd(s, v, k, e, to, fuel);
    ghost var l1 := s.log;
    s.log := s.log + [Changed(k, EndProp(e))];
    ghost var l2 := s.log;
    o := RevalidateAndRepaint(s, v, k, fuel);
    LogSuffix(old(s.log), l1, l2, s.log, Changed(k, EndProp(e)));
  }

  /** The DefaultConnection part of setSourceComponent and
      setDestinationComponent: revalidate(), and repaint() unless that threw. */
  method RevalidateAndRepaint(s: Scene, v: View, k: Id, fuel: nat) returns (o: Outcome)
    requires Fit(s.nodes, s.geo, s.rank) && k in s.nodes
    modifies s`geo, s`valid, s`log
    ensures Fit(s.nodes, s.geo, s.rank) && old(s.log) <= s.log
    ensures o.Normal? ==>
      (k in s.valid <==> !MissingEnd(s.nodes[k])) && EndsWith(s.log, SelfRepaint(s.nodes, s.geo, s.rank, k))
  {
    o := Revalidate(s, v, k, fuel);
    if o.Thrown? {
      return;
    }
    ghost var l1 := s.log;
    Repaint(s, k, PreferredBounds(s.nodes[k], GeoOf(s.geo, k)));
    EndsWithAppend(l1, SelfRepaint(s.nodes, s.geo, s.rank, k));
    PrefixTrans(old(s.log), l1, s.log);
  }

  /** A note appended between two growths of the log stays in what the
      whole run appended. */
  lemma LogSuffix(l0: seq<Note>, l1: seq<Note>, l2: seq<Note>, l3: seq<Note>, n: Note)
    requires l0 <= l1 && l2 == l1 + [n] && l2 <= l3
    ensures n in l3[|l0|..]
  {
    assert l3[|l1|] == n;
  }
}
