/** Small datatypes and sequence facts shared by every part of the model. */
module Collections {

  datatype Option<+T> = None | Some(value: T)

  datatype Result<+T, +E> = Ok(value: T) | Err(error: E)

  ghost predicate NoDup<T(!new)>(s: seq<T>) {
    forall i, k :: 0 <= i < k < |s| ==> s[i] != s[k]
  }

  ghost function Elems<T>(s: seq<T>): set<T> {
    set x | x in s
  }

  lemma NoDupCard<T(!new)>(s: seq<T>)
    requires NoDup(s)
    ensures |Elems(s)| == |s|
  {
    if s != [] {
      NoDupCard(s[1..]);
      assert Elems(s) == {s[0]} + Elems(s[1..]);
    }
  }

  lemma NoDupCount<T(!new)>(s: seq<T>, x: T)
    requires NoDup(s)
    ensures multiset(s)[x] == if x in s then 1 else 0
  {
    if s != [] {
      NoDupCount(s[1..], x);
      assert s == [s[0]] + s[1..];
    }
  }

  /** A HashMap iterates over its keys in an order nobody controls: this method
      returns some enumeration of a set, and callers may rely on nothing more. */
  method Enumerate<T(==,!new)>(s: set<T>) returns (q: seq<T>)
    ensures NoDup(q)
    ensures Elems(q) == s
  {
    q := [];
    var rest := s;
    while rest != {}
      invariant rest <= s && NoDup(q) && Elems(q) == s - rest
      decreases rest
    {
      var x :| x in rest;
      assert x !in Elems(q) && Elems(q + [x]) == Elems(q) + {x};
      q, rest := q + [x], rest - {x};
    }
  }
}
