/**
 * AbstractSpacer and DefaultSpacer: four margins (top, bottom, left, right)
 * that the validating setters keep non-negative. Components use a spacer as
 * their padding.
 */
module Spacers {
  import opened Outcomes

  /** The four margins of a spacer, as a value. */
  datatype Spaces = Spaces(top: int, bottom: int, left: int, right: int)

  predicate NonNegative(v: Spaces) {
    v.top >= 0 && v.bottom >= 0 && v.left >= 0 && v.right >= 0
  }

  const Zero := Spaces(0, 0, 0, 0)

  /** The state reached by `setSpaces(t, b, l, r)` from `v`, and how it ended.
      The four setters run in order; the first negative argument throws, and
      what the earlier setters wrote stays written. */
  function SetAll(v: Spaces, t: int, b: int, l: int, r: int): (Spaces, Outcome) {
    if t < 0 then (v, Thrown(IllegalArgument))
    else if b < 0 then (v.(top := t), Thrown(IllegalArgument))
    else if l < 0 then (v.(top := t, bottom := b), Thrown(IllegalArgument))
    else if r < 0 then (v.(top := t, bottom := b, left := l), Thrown(IllegalArgument))
    else (Spaces(t, b, l, r), Normal)
  }

  /** `setSpaces` succeeds exactly when all four arguments are non-negative, and
      then writes all four. When it throws, the fields before the offending
      argument hold the new values, the offending one and the later ones keep
      their old values, and a spacer that satisfied the invariant still does. */
  lemma SetAllOutcome(v: Spaces, t: int, b: int, l: int, r: int)
    ensures SetAll(v, t, b, l, r).1 == Normal <==> t >= 0 && b >= 0 && l >= 0 && r >= 0
    ensures SetAll(v, t, b, l, r).1 == Normal ==> SetAll(v, t, b, l, r).0 == Spaces(t, b, l, r)
    ensures t >= 0 && b < 0 ==> SetAll(v, t, b, l, r).0 == Spaces(t, v.bottom, v.left, v.right)
    ensures t >= 0 && b >= 0 && l < 0 ==> SetAll(v, t, b, l, r).0 == Spaces(t, b, v.left, v.right)
    ensures t >= 0 && b >= 0 && l >= 0 && r < 0 ==> SetAll(v, t, b, l, r).0 == Spaces(t, b, l, v.right)
    ensures t < 0 ==> SetAll(v, t, b, l, r).0 == v
    ensures NonNegative(v) ==> NonNegative(SetAll(v, t, b, l, r).0)
  {
  }

  /** A spacer, as an object whose four fields the setters rewrite. */
  class Spacer {
    var top: int
    var bottom: int
    var left: int
    var right: int

    /** The class invariant: no margin is ever negative. */
    ghost predicate Valid() reads this {
      NonNegative(Value())
    }

    function Value(): Spaces reads this {
      Spaces(top, bottom, left, right)
    }

    /** DefaultSpacer(): all four margins 0. */
    constructor ()
      ensures Valid() && Value() == Zero && IsEmpty()
    {
      top, bottom, left, right := 0, 0, 0, 0;
    }

    /** isEmpty(): every margin is 0. */
    predicate IsEmpty() reads this {
      top == 0 && bottom == 0 && left == 0 && right == 0
    }

    method SetTop(v: int) returns (o: Outcome)
      modifies this
      ensures v < 0 ==> o == Thrown(IllegalArgument) && Value() == old(Value())
      ensures v >= 0 ==> o == Normal && Value() == old(Value()).(top := v)
      ensures old(Valid()) ==> Valid()
    {
      if v < 0 { return Thrown(IllegalArgument); }
      top := v;
      return Normal;
    }

    method SetBottom(v: int) returns (o: Outcome)
      modifies this
      ensures v < 0 ==> o == Thrown(IllegalArgument) && Value() == old(Value())
      ensures v >= 0 ==> o == Normal && Value() == old(Value()).(bottom := v)
      ensures old(Valid()) ==> Valid()
    {
      if v < 0 { return Thrown(IllegalArgument); }
      bottom := v;
      return Normal;
    }

    method SetLeft(v: int) returns (o: Outcome)
      modifies this
      ensures v < 0 ==> o == Thrown(IllegalArgument) && Value() == old(Value())
      ensures v >= 0 ==> o == Normal && Value() == old(Value()).(left := v)
      ensures old(Valid()) ==> Valid()
    {
      if v < 0 { return Thrown(IllegalArgument); }
      left := v;
      return Normal;
    }

    method SetRight(v: int) returns (o: Outcome)
      modifies this
      ensures v < 0 ==> o == Thrown(IllegalArgument) && Value() == old(Value())
      ensures v >= 0 ==> o == Normal && Value() == old(Value()).(right := v)
      ensures old(Valid()) ==> Valid()
    {
      if v < 0 { return Thrown(IllegalArgument); }
      right := v;
      return Normal;
    }

    /** setSpaces(t, b, l, r): the four setters in order, stopping at the first throw. */
    method SetSpaces(t: int, b: int, l: int, r: int) returns (o: Outcome)
      modifies this
      ensures (Value(), o) == SetAll(old(Value()), t, b, l, r)
      ensures old(Valid()) ==> Valid()
    {
      o := SetTop(t);
      if o.Thrown? { return; }
      o := SetBottom(b);
      if o.Thrown? { return; }
      o := SetLeft(l);
      if o.Thrown? { return; }
      o := SetRight(r);
    }

    /** setSpaces(spacer): copies the other spacer's margins, which are valid, so
        only a null argument fails. */
    method SetSpacesFrom(src: Spacer?) returns (o: Outcome)
      requires src != null ==> src.Valid()
      modifies this
      ensures src == null ==> o == Thrown(NullPointer) && Value() == old(Value())
      ensures src != null ==> o == Normal && Value() == old(src.Value()) && Valid()
    {
      if src == null { return Thrown(NullPointer); }
      o := SetSpaces(src.top, src.bottom, src.left, src.right);
    }

    /** getSpaces(target): makes the target's margins equal to this spacer's. */
    method GetSpaces(target: Spacer?) returns (o: Outcome)
      requires Valid()
      modifies target
      ensures target == null ==> o == Thrown(NullPointer)
      ensures target != null ==> o == Normal && target.Value() == old(Value()) && target.Valid()
    {
      if target == null { return Thrown(NullPointer); }
      o := target.SetSpacesFrom(this);
    }
  }

  /** DefaultSpacer(t, b, l, r): the constructor routes through the validating
      setters, so a negative argument escapes as an exception and no spacer is
      produced. */
  method NewSpacer(t: int, b: int, l: int, r: int) returns (res: Result<Spacer>)
    ensures res.Ok? <==> NonNegative(Spaces(t, b, l, r))
    ensures res.Ok? ==> fresh(res.value) && res.value.Valid() && res.value.Value() == Spaces(t, b, l, r)
    ensures res.Err? ==> res.exc == IllegalArgument
  {
    var sp := new Spacer();
    var o := sp.SetSpaces(t, b, l, r);
    SetAllOutcome(Spaces(0, 0, 0, 0), t, b, l, r);
    if o.Thrown? { return Err(o.exc); }
    return Ok(sp);
  }

  /** DefaultSpacer(spacer): a fresh spacer with the same four margins; being a
      different object, later setters on either leave the other alone. */
  method CopySpacer(src: Spacer?) returns (res: Result<Spacer>)
    requires src != null ==> src.Valid()
    ensures src == null ==> res == Err(NullPointer)
    ensures src != null ==> res.Ok? && fresh(res.value) && res.value.Valid() && res.value.Value() == src.Value()
  {
    if src == null { return Err(NullPointer); }
    res := NewSpacer(src.top, src.bottom, src.left, src.right);
  }

  /** Writing one spacer never changes another: the copy and its source evolve
      independently. */
  method CopyIsIndependent(src: Spacer, v: int) returns (copy: Spacer)
    requires src.Valid() && v >= 0
    modifies src
    ensures fresh(copy) && copy.Value() == old(src.Value()) && src.Value() == old(src.Value()).(top := v)
  {
    var res := CopySpacer(src);
    copy := res.value;
    var o := src.SetTop(v);
  }
}
