/** Small facts about finite collections. */
module Common {

  datatype Option<+T> = None | Some(value: T)

  predicate NoDuplicates<T(==)>(s: seq<T>) {
    forall i, j | 0 <= i < j < |s| :: s[i] != s[j]
  }

  function Elements<T>(s: seq<T>): set<T> {
    set x | x in s
  }

  lemma {:induction false} DistinctCount<T>(s: seq<T>)
    requires NoDuplicates(s)
    ensures |Elements(s)| == |s|
  {
    if s == [] {
      assert Elements(s) == {};
    } else {
      assert Elements(s) == {s[0]} + Elements(s[1..]);
      DistinctCount(s[1..]);
    }
  }

  lemma {:induction false} SubsetCount<T>(a: set<T>, b: set<T>)
    requires a <= b
    ensures |a| <= |b|
    ensures |a| == |b| ==> a == b
  {
    if a != {} {
      var x :| x in a;
      SubsetCount(a - {x}, b - {x});
    }
  }

  lemma {:induction false} FreshNumber(s: set<nat>) returns (n: nat)
    ensures n !in s
    ensures forall x | x in s :: x < n
    decreases s
  {
    if s == {} {
      n := 0;
    } else {
      var x :| x in s;
      n := FreshNumber(s - {x});
      assert s == s - {x} + {x};
      if n <= x { n := x + 1; }
    }
  }

  method Enumerate(s: set<nat>) returns (order: seq<nat>)
    ensures NoDuplicates(order) && Elements(order) == s
  {
    order := [];
    var rest := s;
    assert Elements(order) == {};
    while rest != {}
      invariant rest <= s && NoDuplicates(order) && Elements(order) == s - rest
      decreases rest
    {
      var x :| x in rest;
      assert x !in Elements(order);
      assert Elements(order + [x]) == Elements(order) + {x};
      order := order + [x];
      rest := rest - {x};
    }
  }
}
