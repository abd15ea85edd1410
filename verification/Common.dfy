/** Result types and small collection facts shared by the other modules. */
module Common {

  datatype Option<+T> = None | Some(value: T)

  datatype Result<+T, +E> = Ok(value: T) | Err(error: E)

  ghost predicate NoDup<T>(s: seq<T>) {
    forall i, j :: 0 <= i < j < |s| ==> s[i] != s[j]
  }

  ghost function Elements<T>(s: seq<T>): (r: set<T>) {
    set x | x in s
  }

  /** The sequence has exactly the elements of the set, each once. */
  ghost predicate Enumerates<T>(s: seq<T>, elements: set<T>) {
    NoDup(s) && Elements(s) == elements
  }

  lemma AppendEnumerates<T>(s: seq<T>, elements: set<T>, x: T)
    requires Enumerates(s, elements) && x !in elements
    ensures Enumerates(s + [x], elements + {x})
  {
    assert x !in Elements(s);
    assert Elements(s + [x]) == Elements(s) + {x};
  }

  /** A sequence without repeats is as long as its set of elements is large. */
  lemma {:induction false} NoDupCardinality<T>(s: seq<T>)
    requires NoDup(s)
    ensures |Elements(s)| == |s|
  {
    if s == [] {
      assert Elements(s) == {};
    } else {
      var rest, last := s[..|s| - 1], s[|s| - 1];
      NoDupCardinality(rest);
      assert s == rest + [last];
      assert last !in Elements(rest);
      assert Elements(s) == Elements(rest) + {last};
    }
  }

  lemma SubsetCardinality<T>(a: set<T>, b: set<T>)
    requires a <= b
    ensures |a| <= |b|
  {
    if a != {} {
      var x :| x in a;
      SubsetCardinality(a - {x}, b - {x});
    }
  }

  function Last<T>(s: seq<T>): T
    requires s != []
  {
    s[|s| - 1]
  }

  function Front<T>(s: seq<T>): seq<T>
    requires s != []
  {
    s[..|s| - 1]
  }

  lemma LastOfAppended<T>(s: seq<T>, x: T)
    ensures Last(s + [x]) == x && Front(s + [x]) == s
  {
  }
}
