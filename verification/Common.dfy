/** Small datatypes and sequence facts shared by the other modules. */
module Common {

  datatype Option<+T> = None | Some(value: T) {
    function GetOr(default: T): T {
      match this
      case Some(v) => v
      case None => default
    }
  }

  ghost predicate Distinct<T>(xs: seq<T>) {
    forall i, j :: 0 <= i < j < |xs| ==> xs[i] != xs[j]
  }

  function SetOf<T>(xs: seq<T>): set<T> {
    set x | x in xs
  }

  function Min(a: int, b: int): int {
    if a <= b then a else b
  }

  function Max(a: int, b: int): int {
    if a >= b then a else b
  }

  /** A list has at most as many different elements as entries, and exactly as many when none repeats. */
  lemma {:induction false} SetOfSize<T>(xs: seq<T>)
    ensures |SetOf(xs)| <= |xs|
    ensures |SetOf(xs)| == |xs| <==> Distinct(xs)
  {
    if xs == [] {
      assert SetOf(xs) == {};
    } else {
      var last := |xs| - 1;
      var init, x := xs[..last], xs[last];
      SetOfSize(init);
      assert xs == init + [x];
      assert SetOf(xs) == SetOf(init) + {x};
      if x in init {
        assert SetOf(xs) == SetOf(init);
      } else {
        assert Distinct(init) ==> Distinct(xs);
      }
    }
  }

  lemma SubsetSize<T>(a: set<T>, b: set<T>)
    requires a <= b
    ensures |a| <= |b|
    ensures |a| == |b| ==> a == b
  {
    assert b == a + (b - a);
  }
}
