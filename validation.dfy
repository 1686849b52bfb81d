/**
 * The Valid/Invalid machine of a component (DefaultComponent,
 * DefaultConnectedComponent, DefaultContainerComponent, DefaultConnection),
 * the validation listeners it notifies, and repainting.
 *
 * Every method here takes a `fuel` that bounds how deeply its calls may nest:
 * a chain of calls that would go deeper ends in `Thrown(StackOverflow)`, the
 * StackOverflowError the JVM raises. Some chains are really unbounded: a
 * connected container whose inbound connection is also its own child
 * invalidates the connection, which invalidates its parent, which is the
 * still-valid container again.
 */
module Validation {
  import opened Outcomes
  import opened Seqs
  import opened Geometry
  import opened Nodes
  import opened Graph
  import opened Walks
  import opened Panels

  /** The notes fireValidationEvent leaves: one delivery per validation
      listener, in order, or none when validation notification is off. */
  function ValidationNotes(n: Node, ev: Event): seq<Note>
  {
    if n.Is(ValidationNotify) then Deliveries(n.List(ValidationList), ev) else []
  }

  /** AbstractComponent.fireValidationEvent. */
  method FireValidation(s: Scene, c: Id, v: Validity)
    requires c in s.nodes
    modifies s`log
    ensures s.log == old(s.log) + ValidationNotes(s.nodes[c], ValidationEv(c, v))
  {
    var n := s.nodes[c];
    if !n.Is(ValidationNotify) {
      return;
    }
    var ev := ValidationEv(c, v);
    var ls := n.List(ValidationList);
    var i := 0;
    while i < |ls|
      invariant 0 <= i <= |ls|
      invariant s.log == old(s.log) + Deliveries(ls[..i], ev)
    {
      assert ls[..i + 1][..i] == ls[..i];
      s.log := s.log + [Heard(ls[i], ev)];
      i := i + 1;
    }
    assert ls[..|ls|] == ls;
  }

  // ---------------------------------------------------------------------------
  // invalidate()

  /** What an invalidation may do to the set of valid components: take
      components out of it, and only components whose parent is out of it
      afterwards. */
  predicate Invalidation(m: Store, v: set<Id>, v': set<Id>) {
    v' <= v && forall d | d in v - v' :: d in m && m[d].w.parent.Some? ==> m[d].w.parent.value !in v'
  }

  lemma InvalidationTrans(m: Store, v1: set<Id>, v2: set<Id>, v3: set<Id>)
    requires Invalidation(m, v1, v2) && Invalidation(m, v2, v3)
    ensures Invalidation(m, v1, v3)
  {
  }

  /** What every invalidation keeps: validity only shrinks, as Invalidation
      says, and the log only grows. */
  twostate predicate InvalidationFrame(s: Scene)
    reads s
  {
    Invalidation(s.nodes, old(s.valid), s.valid) && old(s.log) <= s.log
  }

  /** DefaultComponent.invalidate: an invalid component returns at once;
      otherwise the parent is invalidated first, then the component clears
      its flag and fires INVALIDATED. */
  method InvalidateComponent(s: Scene, c: Id, fuel: nat) returns (o: Outcome)
    requires s.Sound() && c in s.nodes
    modifies s`valid, s`log
    ensures o.Thrown? ==> o == Thrown(StackOverflow)
    ensures InvalidationFrame(s)
    ensures c !in old(s.valid) ==> o == Normal && s.valid == old(s.valid) && s.log == old(s.log)
    ensures o.Normal? ==> c !in s.valid
    decreases fuel, 0
  {
    if c !in s.valid {
      return Normal;
    }
    var parent := s.nodes[c].w.parent;
    if parent.Some? {
      if fuel == 0 {
        return Thrown(StackOverflow);
      }
      o := Invalidate(s, parent.value, fuel - 1);
      if o.Thrown? {
        return;
      }
    }
    ghost var v1 := s.valid;
    s.valid := s.valid - {c};
    InvalidationTrans(s.nodes, old(s.valid), v1, s.valid);
    FireValidation(s, c, Invalidated);
    o := Normal;
  }

  /** invalidate() as the class of c defines it: a connected component
      (DefaultConnectedComponent and every container) that is valid
      invalidates its inbound connections, then its outbound ones, then runs
      DefaultComponent's part. */
  method Invalidate(s: Scene, c: Id, fuel: nat) returns (o: Outcome)
    requires s.Sound() && c in s.nodes
    modifies s`valid, s`log
    ensures o.Thrown? ==> o == Thrown(StackOverflow)
    ensures InvalidationFrame(s)
    ensures c !in old(s.valid) ==> o == Normal && s.valid == old(s.valid) && s.log == old(s.log)
    ensures o.Normal? ==> c !in s.valid
    ensures o.Normal? && c in old(s.valid) && IsConnectedKind(s.nodes[c].kind) ==>
      forall k | k in s.nodes[c].w.inbound + s.nodes[c].w.outbound :: k !in s.valid
    decreases fuel, 1
  {
    if !IsConnectedKind(s.nodes[c].kind) {
      o := InvalidateComponent(s, c, fuel);
      return;
    }
    if c !in s.valid {
      return Normal;
    }
    if fuel == 0 {
      return Thrown(StackOverflow);
    }
    var w := s.nodes[c].w;
    ConnectionsStored(s.nodes, s.rank, c);
    o := InvalidateEach(s, w.inbound, fuel - 1);
    if o.Thrown? {
      return;
    }
    o := InvalidateEach(s, w.outbound, fuel - 1);
    if o.Thrown? {
      return;
    }
    o := InvalidateComponent(s, c, fuel - 1);
  }

  lemma ConnectionsStored(m: Store, rank: map<Id, nat>, c: Id)
    requires Walkable(m, rank) && c in m
    ensures forall k | k in m[c].w.inbound + m[c].w.outbound :: k in m
  {
  }

  /** The loop `for (i = 0, size = count; i < size; i++) get(i).invalidate()`
      over a connection list, which invalidation leaves as it is. */
  method InvalidateEach(s: Scene, ks: seq<Id>, fuel: nat) returns (o: Outcome)
    requires s.Sound() && forall k | k in ks :: k in s.nodes
    modifies s`valid, s`log
    ensures o.Thrown? ==> o == Thrown(StackOverflow)
    ensures InvalidationFrame(s)
    ensures o.Normal? ==> forall k | k in ks :: k !in s.valid
    decreases fuel, 2
  {
    var i := 0;
    while i < |ks|
      invariant 0 <= i <= |ks|
      invariant InvalidationFrame(s)
      invariant forall j | 0 <= j < i :: ks[j] !in s.valid
    {
      o := Invalidate(s, ks[i], fuel);
      if o.Thrown? {
        return;
      }
      i := i + 1;
    }
    o := Normal;
  }

  // ---------------------------------------------------------------------------
  // validate() of DefaultComponent, and repaint

  /** DefaultComponent.validate: a valid component returns at once; an
      invalid one sets its flag and fires VALIDATED, and leaves its parent
      alone. */
  method ValidateComponent(s: Scene, c: Id)
    requires c in s.nodes
    modifies s`valid, s`log
    ensures c in old(s.valid) ==> s.valid == old(s.valid) && s.log == old(s.log)
    ensures c !in old(s.valid) ==>
      s.valid == old(s.valid) + {c} && s.log == old(s.log) + ValidationNotes(s.nodes[c], ValidationEv(c, Validated))
  {
    if c in s.valid {
      return;
    }
    s.valid := s.valid + {c};
    FireValidation(s, c, Validated);
  }

  /** The notes repaint(r) on c leaves: the request that reaches the panel,
      if any. */
  function RepaintNotes(m: Store, gm: Geos, ghost rank: map<Id, nat>, c: Id, r: Rect): seq<Note>
    requires Walkable(m, rank) && c in m
  {
    var t := RepaintTarget(m, gm, rank, c, r);
    if t.Some? then [Painted(t.value)] else []
  }

  /** AbstractComponent.repaint(Rectangle2D). */
  method Repaint(s: Scene, c: Id, r: Rect)
    requires s.Sound() && c in s.nodes
    modifies s`log
    ensures s.log == old(s.log) + RepaintNotes(s.nodes, s.geo, s.rank, c, r)
  {
    var t := RepaintTarget(s.nodes, s.geo, s.rank, c, r);
    if t.Some? {
      s.log := s.log + [Painted(t.value)];
    }
  }

  lemma PrefixTrans(a: seq<Note>, b: seq<Note>, c: seq<Note>)
    requires a <= b && b <= c
    ensures a <= c
  {
  }

  /** `t` is the tail of `log`. */
  ghost predicate EndsWith(log: seq<Note>, t: seq<Note>) {
    |t| <= |log| && log[|log| - |t|..] == t
  }
}
