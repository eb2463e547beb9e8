/** Sequence and index-set operations the view model relies on: Swift's
    `Array.remove(at:)`, the effect of deleting objects from an ordered list,
    and `IndexSet.first`. */
module Collections {
  import opened Wrappers

  predicate Distinct<T(==)>(s: seq<T>) {
    forall i, j :: 0 <= i < j < |s| ==> s[i] != s[j]
  }

  function Elements<T(==)>(s: seq<T>): set<T> {
    set x | x in s
  }

  /** `Array.remove(at: i)`: the element at `i` is dropped and the later ones move down by one. */
  function RemoveAt<T>(s: seq<T>, i: nat): (r: seq<T>)
    requires i < |s|
    ensures |r| == |s| - 1
    ensures forall j :: 0 <= j < i ==> r[j] == s[j]
    ensures forall j :: i <= j < |r| ==> r[j] == s[j + 1]
  {
    s[..i] + s[i + 1..]
  }

  /** The elements of `s` that are not in `gone`, in their original order. */
  function Without<T(==)>(s: seq<T>, gone: set<T>): (r: seq<T>)
    ensures |r| <= |s|
    ensures forall x :: x in r ==> x in s && x !in gone
    ensures forall x :: x in s && x !in gone ==> x in r
  {
    if s == [] then []
    else (if s[0] in gone then [] else [s[0]]) + Without(s[1..], gone)
  }

  lemma RemoveAtKeepsDistinct<T>(s: seq<T>, i: nat)
    requires Distinct(s) && i < |s|
    ensures Distinct(RemoveAt(s, i))
  {
  }

  lemma {:induction false} WithoutKeepsDistinct<T>(s: seq<T>, gone: set<T>)
    requires Distinct(s)
    ensures Distinct(Without(s, gone))
  {
    if s != [] {
      assert Distinct(s[1..]) by {
        forall a, b | 0 <= a < b < |s| - 1 ensures s[1..][a] != s[1..][b] {
          assert s[1..][a] == s[a + 1] && s[1..][b] == s[b + 1];
        }
      }
      WithoutKeepsDistinct(s[1..], gone);
    }
  }

  /** Deleting objects none of which is in the list leaves the list as it was. */
  lemma {:induction false} WithoutDisjoint<T>(s: seq<T>, gone: set<T>)
    requires forall x :: x in gone ==> x !in s
    ensures Without(s, gone) == s
  {
    if s != [] {
      WithoutDisjoint(s[1..], gone);
    }
  }

  /** Deleting the object at position `i` of a list without repetitions is `remove(at: i)`. */
  lemma {:induction false} WithoutSelected<T>(s: seq<T>, i: nat)
    requires Distinct(s) && i < |s|
    ensures Without(s, {s[i]}) == RemoveAt(s, i)
  {
    if i == 0 {
      WithoutDisjoint(s[1..], {s[0]});
    } else {
      assert Distinct(s[1..]) by {
        forall a, b | 0 <= a < b < |s| - 1 ensures s[1..][a] != s[1..][b] {
          assert s[1..][a] == s[a + 1] && s[1..][b] == s[b + 1];
        }
      }
      assert s[1..][i - 1] == s[i];
      WithoutSelected(s[1..], i - 1);
      assert s[0] != s[i];
      assert RemoveAt(s, i) == [s[0]] + RemoveAt(s[1..], i - 1);
    }
  }

  /** Deleting one more object after a batch of deletions is deleting the enlarged batch. */
  lemma {:induction false} WithoutOneMore<T>(s: seq<T>, gone: set<T>, x: T)
    ensures Without(Without(s, gone), {x}) == Without(s, gone + {x})
  {
    if s != [] {
      WithoutOneMore(s[1..], gone, x);
      var rest := Without(s[1..], gone);
      if s[0] in gone {
        assert Without(s, gone) == [] + rest;
        assert [] + rest == rest;
        calc {
          Without(Without(s, gone), {x});
          Without(rest, {x});
          Without(s[1..], gone + {x});
          Without(s, gone + {x});
        }
      } else {
        var w := [s[0]] + rest;
        assert Without(s, gone) == w;
        assert w[0] == s[0] && w[1..] == rest;
        calc {
          Without(w, {x});
          (if s[0] == x then [] else [s[0]]) + Without(rest, {x});
          (if s[0] == x then [] else [s[0]]) + Without(s[1..], gone + {x});
          Without(s, gone + {x});
        }
      }
    }
  }

  /** Deleting every element of a list leaves nothing. */
  lemma {:induction false} WithoutEverything<T>(s: seq<T>, gone: set<T>)
    requires forall x :: x in s ==> x in gone
    ensures Without(s, gone) == []
  {
    if s != [] {
      WithoutEverything(s[1..], gone);
    }
  }

  lemma {:induction false} MinimumExists(s: set<nat>)
    requires s != {}
    ensures exists m :: m in s && forall x :: x in s ==> m <= x
  {
    var y :| y in s;
    if s != {y} {
      MinimumExists(s - {y});
      var m :| m in s - {y} && forall x :: x in s - {y} ==> m <= x;
      var least := if y < m then y else m;
      forall x | x in s ensures least <= x {
        if x != y {
          assert x in s - {y};
        }
      }
      assert least in s;
    } else {
      assert forall x :: x in s ==> y <= x;
    }
  }

  /** `IndexSet.first`: the smallest index of a selection, or nil for an empty selection. */
  function First(offsets: set<nat>): (r: Option<nat>)
    ensures r.None? <==> offsets == {}
    ensures r.Some? ==> r.value in offsets && forall x :: x in offsets ==> r.value <= x
  {
    if offsets == {} then None
    else
      MinimumExists(offsets);
      var m :| m in offsets && forall x :: x in offsets ==> m <= x;
      Some(m)
  }
}
