/**
 * Exceptions raised by the toolkit and the ordered, duplicate-free lists
 * (java.util.ArrayList fields) that every component keeps.
 */
module Outcomes {
  /** The Java exception classes the modelled code throws. `StackOverflow`
      stands for a recursion deeper than the fuel a call was given. */
  datatype Exc =
    | IllegalArgument | IllegalState | NullPointer | UnsupportedOperation | Runtime
    | IndexOutOfBounds   // an ArrayList index outside the list
    | StackOverflow

  /** How a `void` Java method ended. */
  datatype Outcome = Normal | Thrown(exc: Exc)
  {
    predicate IsNormal() { this.Normal? }
  }

  /** How a value-returning Java method ended. */
  datatype Result<T> = Ok(value: T) | Err(exc: Exc)

  /** A reference that may be null. */
  datatype Option<T> = None | Some(value: T)
}

module Seqs {
  /** No element occurs twice: what `if (!list.contains(x)) list.add(x)` keeps. */
  predicate NoDup<T(==)>(s: seq<T>) {
    forall i, j | 0 <= i < j < |s| :: s[i] != s[j]
  }

  /** `list.add(index, x)`. */
  function InsertAt<T>(s: seq<T>, i: nat, x: T): seq<T>
    requires i <= |s|
  {
    s[..i] + [x] + s[i..]
  }

  /** `list.remove(index)`. */
  function RemoveAt<T>(s: seq<T>, i: nat): seq<T>
    requires i < |s|
  {
    s[..i] + s[i + 1..]
  }

  /** `list.indexOf(x)`: the first index that holds x, or -1. */
  function IndexOf<T(==)>(s: seq<T>, x: T): (r: int)
    ensures -1 <= r < |s|
    ensures r == -1 <==> x !in s
    ensures 0 <= r ==> s[r] == x && x !in s[..r]
  {
    if |s| == 0 then -1
    else if s[0] == x then 0
    else
      var k := IndexOf(s[1..], x);
      assert k >= 0 ==> s[..k + 1] == [s[0]] + s[1..][..k];
      if k == -1 then -1 else k + 1
  }

  /** `list.remove(x)` as the toolkit writes it: `int i = indexOf(x); if (i > -1) remove(i)`. */
  function Remove<T(==)>(s: seq<T>, x: T): seq<T>
  {
    var i := IndexOf(s, x);
    if i > -1 then RemoveAt(s, i) else s
  }

  /** The step of a loop over s: the prefix taken so far grows by s[i]. */
  lemma TakeOneMore<T>(s: seq<T>, i: nat)
    requires i < |s|
    ensures s[..i + 1] == s[..i] + [s[i]]
  {
  }

  /** Notes appended in two steps are the notes of the two steps appended. */
  lemma AppendAssoc<T>(a: seq<T>, b: seq<T>, c: seq<T>)
    ensures a + b + c == a + (b + c)
  {
  }

  /** The end of a loop over s: the prefix taken is all of s. */
  lemma TakeAll<T>(s: seq<T>)
    ensures s[..|s|] == s
  {
  }

  lemma InsertAtMembers<T>(s: seq<T>, i: nat, x: T, y: T)
    requires i <= |s|
    ensures |InsertAt(s, i, x)| == |s| + 1 && InsertAt(s, i, x)[i] == x
    ensures y in InsertAt(s, i, x) <==> y == x || y in s
  {
    assert s == s[..i] + s[i..];
    if y in s && y != x {
      var k :| 0 <= k < |s| && s[k] == y;
      if k < i { assert InsertAt(s, i, x)[k] == y; } else { assert InsertAt(s, i, x)[k + 1] == y; }
    }
  }

  /** Inserting an element that is absent keeps a list duplicate-free. */
  lemma {:induction false} InsertAtNoDup<T>(s: seq<T>, i: nat, x: T)
    requires i <= |s| && NoDup(s) && x !in s
    ensures NoDup(InsertAt(s, i, x))
  {
    var r := InsertAt(s, i, x);
    forall a, b | 0 <= a < b < |r| ensures r[a] != r[b] {
      var a' := if a < i then a else a - 1;
      var b' := if b < i then b else b - 1;
      if a == i {
        assert r[b] == s[b'];
      } else if b == i {
        assert r[a] == s[a'];
      } else {
        assert r[a] == s[a'] && r[b] == s[b'] && a' < b';
      }
    }
  }

  /** Removing the entry at an index of a duplicate-free list removes exactly that element. */
  lemma RemoveAtMembers<T>(s: seq<T>, i: nat, y: T)
    requires i < |s| && NoDup(s)
    ensures |RemoveAt(s, i)| == |s| - 1
    ensures y in RemoveAt(s, i) <==> y in s && y != s[i]
    ensures NoDup(RemoveAt(s, i))
  {
    var r := RemoveAt(s, i);
    assert forall k | 0 <= k < |r| :: r[k] == if k < i then s[k] else s[k + 1];
    if y in s && y != s[i] {
      var k :| 0 <= k < |s| && s[k] == y;
      if k < i { assert r[k] == y; } else { assert r[k - 1] == y; }
    }
    forall a, b | 0 <= a < b < |r| ensures r[a] != r[b] {
      var a' := if a < i then a else a + 1;
      var b' := if b < i then b else b + 1;
      assert r[a] == s[a'] && r[b] == s[b'] && a' < b';
    }
  }

  /** Removing by reference from a duplicate-free list drops x and keeps every other element. */
  lemma RemoveMembers<T>(s: seq<T>, x: T, y: T)
    requires NoDup(s)
    ensures NoDup(Remove(s, x))
    ensures y in Remove(s, x) <==> y in s && y != x
    ensures x in s ==> |Remove(s, x)| == |s| - 1
    ensures x !in s ==> Remove(s, x) == s
  {
    var i := IndexOf(s, x);
    if i > -1 { RemoveAtMembers(s, i, y); }
  }
  /** Removing entries only ever drops elements. */
  lemma RemoveAtSubset<T>(s: seq<T>, i: nat, y: T)
    requires i < |s|
    ensures y in RemoveAt(s, i) ==> y in s
  {
    assert s == s[..i] + [s[i]] + s[i + 1..];
  }

  lemma RemoveSubset<T>(s: seq<T>, x: T, y: T)
    ensures y in Remove(s, x) ==> y in s
  {
    var i := IndexOf(s, x);
    if i > -1 { RemoveAtSubset(s, i, y); }
  }

  /** In a duplicate-free list the first occurrence of an entry is the entry's own index. */
  lemma IndexOfUnique<T>(s: seq<T>, i: nat)
    requires NoDup(s) && i < |s|
    ensures IndexOf(s, s[i]) == i && Remove(s, s[i]) == RemoveAt(s, i)
  {
    var r := IndexOf(s, s[i]);
    assert s[r] == s[i];
  }
}
